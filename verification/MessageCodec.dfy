/** The serialized message: how it is written in two passes over the message, and what its accessors read back. */
module MessageCodec {
  import opened Integers
  import opened Search
  import opened Bytes
  import opened Sequences

  /** A value, or nothing for a nil slice. */
  type Blob = Option<seq<Byte>>

  type Int8 = x: int | -128 <= x < 128

  datatype Message = Message(magic: Int8, attributes: Int8, key: Blob, value: Blob, headers: map<seq<Byte>, Blob>)

  // ---------------------------------------------------------------- layout

  predicate ShortBlob(o: Blob) {
    o.Some? ==> |o.value| < I32
  }

  predicate ShortHeader(h: (seq<Byte>, Blob)) {
    |h.0| < I16 && ShortBlob(h.1)
  }

  /** A header whose length prefixes do not overflow. */
  type Header = h: (seq<Byte>, Blob) | ShortHeader(h) witness ([], None)

  /** A string is limited to 2^15 - 1 bytes, any other slice to 2^31 - 1. */
  predicate Encodable(m: Message) {
    ShortBlob(m.key) && ShortBlob(m.value) && forall k <- m.headers :: ShortHeader((k, m.headers[k]))
  }

  /** A range loop over the headers visits each of them once, in an order of its own. */
  ghost predicate Visits(order: seq<(seq<Byte>, Blob)>, m: Message) {
    multiset(order) == multiset(m.headers.Items)
  }

  lemma {:induction false} VisitsAll(order: seq<(seq<Byte>, Blob)>, m: Message)
    requires Visits(order, m)
    ensures |order| == |m.headers|
    ensures forall h :: h in order <==> h.0 in m.headers && m.headers[h.0] == h.1
  {
    assert |multiset(order)| == |order| && |multiset(m.headers.Items)| == |m.headers.Items|;
    forall h ensures h in order <==> h.0 in m.headers && m.headers[h.0] == h.1 {
      assert h in order <==> h in multiset(order);
      assert h in m.headers.Items <==> h in multiset(m.headers.Items);
    }
  }

  function Int8Byte(x: Int8): Byte {
    if x < 0 then x + 256 else x
  }

  function BlobSize(o: Blob): nat {
    if o.None? then 4 else 4 + |o.value|
  }

  function BlobBytes(o: Blob): (bs: seq<Byte>)
    requires ShortBlob(o)
    ensures |bs| == BlobSize(o)
  {
    if o.None? then PutInt32(-1) else PutInt32(|o.value|) + o.value
  }

  function StringBytes(k: seq<Byte>): (bs: seq<Byte>)
    ensures |bs| == 2 + |k|
  {
    BE(|k|, 2) + k
  }

  function OneHeader(h: Header): (bs: seq<Byte>)
    ensures |bs| == 2 + |h.0| + BlobSize(h.1)
  {
    StringBytes(h.0) + BlobBytes(h.1)
  }

  function HeaderBlocks(hs: seq<Header>): (bs: seq<seq<Byte>>)
    ensures |bs| == |hs| && forall i :: 0 <= i < |hs| ==> bs[i] == OneHeader(hs[i])
  {
    seq(|hs|, i requires 0 <= i < |hs| => OneHeader(hs[i]))
  }

  function HeaderBytes(hs: seq<Header>): seq<Byte> {
    Flat(HeaderBlocks(hs))
  }

  /** The header count is cut to sixteen bits. */
  function Body(m: Message, hs: seq<Header>): seq<Byte>
    requires ShortBlob(m.key) && ShortBlob(m.value)
  {
    [Int8Byte(m.magic), Int8Byte(m.attributes)] + BlobBytes(m.key) + BlobBytes(m.value)
    + (BE(|hs| % U16, 2) + HeaderBytes(hs))
  }

  function Encoded(m: Message, hs: seq<Header>, crc: Digest): seq<Byte>
    requires ShortBlob(m.key) && ShortBlob(m.value)
  {
    BE(crc(Body(m, hs)), 4) + Body(m, hs)
  }

  // ---------------------------------------------------------------- the length pass

  function HeaderSize(h: (seq<Byte>, Blob)): nat {
    2 + |h.0| + BlobSize(h.1)
  }

  function HeaderSizes(hs: seq<(seq<Byte>, Blob)>): nat {
    if hs == [] then 0 else HeaderSizes(hs[..|hs| - 1]) + HeaderSize(hs[|hs| - 1])
  }

  function EncodedSize(m: Message, hs: seq<(seq<Byte>, Blob)>): nat {
    4 + 2 + BlobSize(m.key) + BlobSize(m.value) + 2 + HeaderSizes(hs)
  }

  lemma {:induction false} HeaderBytesSize(hs: seq<Header>)
    ensures |HeaderBytes(hs)| == HeaderSizes(hs)
  {
    if hs == [] {
    } else {
      HeaderBytesSize(hs[..|hs| - 1]);
      assert HeaderBlocks(hs)[..|hs| - 1] == HeaderBlocks(hs[..|hs| - 1]);
    }
  }

  lemma {:induction false} SizesSplit(a: seq<(seq<Byte>, Blob)>, b: seq<(seq<Byte>, Blob)>)
    ensures HeaderSizes(a + b) == HeaderSizes(a) + HeaderSizes(b)
  {
    if b == [] {
      assert a + b == a;
    } else {
      assert (a + b)[..|a + b| - 1] == a + b[..|b| - 1];
      SizesSplit(a, b[..|b| - 1]);
    }
  }

  lemma {:induction false} Pulled<T>(order: seq<T>, other: seq<T>) returns (a: seq<T>, b: seq<T>)
    requires order != [] && multiset(order) == multiset(other)
    ensures other == a + ([order[0]] + b)
    ensures multiset(order[1..]) == multiset(a + b)
  {
    assert order[0] in multiset(other);
    var i :| 0 <= i < |other| && other[i] == order[0];
    a, b := other[..i], other[i + 1..];
    assert other == a + ([order[0]] + b);
    assert order == [order[0]] + order[1..];
    assert multiset(order[1..]) == multiset(order) - multiset{order[0]};
    assert multiset(a + b) == multiset(other) - multiset{order[0]};
  }

  /** The size does not depend on the order in which the two passes meet the headers. */
  lemma {:induction false} SizesAgree(order: seq<(seq<Byte>, Blob)>, other: seq<(seq<Byte>, Blob)>)
    requires multiset(order) == multiset(other)
    ensures HeaderSizes(order) == HeaderSizes(other)
    decreases |order|
  {
    if order == [] {
      assert |multiset(other)| == 0;
    } else {
      var a, b := Pulled(order, other);
      SizesSplit(a, [order[0]] + b);
      SizesSplit([order[0]], b);
      SizesSplit(a, b);
      SizesAgree(order[1..], a + b);
      SizesSplit([order[0]], order[1..]);
      assert order == [order[0]] + order[1..];
    }
  }

  /** The buffer sized by the first pass is filled exactly by the second, in whatever orders they visit the headers. */
  lemma {:induction false} PassesAgree(m: Message, order: seq<(seq<Byte>, Blob)>, other: seq<Header>, crc: Digest)
    requires Encodable(m) && Visits(order, m) && Visits(other, m)
    ensures EncodedSize(m, order) == |Encoded(m, other, crc)|
  {
    SizesAgree(order, other);
    HeaderBytesSize(other);
  }

  // ---------------------------------------------------------------- the accessors

  /** What an accessor yields; a slice expression out of range panics. */
  datatype Read<T> = Panic | Got(value: T)

  /** A length-prefixed slice: where it ends, in 32-bit arithmetic, and its signed size. */
  function BlobAt(bs: seq<Byte>, at: int): (r: Read<(int, int)>)
    requires Int32(at)
    ensures r.Got? ==> Int32(r.value.0)
  {
    if at < 0 || at + 4 > |bs| then Panic else
    var size := GetInt32(bs, at);
    Got((if size == -1 then Add32(at, 4) else Add32(Add32(at, 4), size), size))
  }

  function Contents(bs: seq<Byte>, at: int, end: int, size: int): Read<Blob>
    requires Int32(at)
  {
    if size == -1 then Got(None)
    else if 0 <= Add32(at, 4) <= end <= |bs| then Got(Some(bs[Add32(at, 4)..end]))
    else Panic
  }

  function KeyOf(bs: seq<Byte>): Read<Blob> {
    var f := BlobAt(bs, 6);
    if f.Panic? then Panic else Contents(bs, 6, f.value.0, f.value.1)
  }

  /** Start, end and size of the value. */
  function ValueField(bs: seq<Byte>): (r: Read<(int, int, int)>)
    ensures r.Got? ==> Int32(r.value.0) && Int32(r.value.1)
  {
    var f := BlobAt(bs, 6);
    if f.Panic? then Panic else
    var g := BlobAt(bs, f.value.0);
    if g.Panic? then Panic else Got((f.value.0, g.value.0, g.value.1))
  }

  function ValueOf(bs: seq<Byte>): Read<Blob> {
    var g := ValueField(bs);
    if g.Panic? then Panic else Contents(bs, g.value.0, g.value.1, g.value.2)
  }

  datatype HeaderRead = HeaderRead(key: seq<Byte>, value: seq<Byte>, next: int)

  /** One header at `n`, and where the next one begins. The size of a nil value is not expected here. */
  function HeaderAt(bs: seq<Byte>, n: int): Read<HeaderRead>
    requires Int32(n)
  {
    if n < 0 || n + 2 > |bs| then Panic else
    Widths();
    var key := Add32(n, 2);
    var v := Add32(key, GetUInt(bs, n, 2));
    if !(0 <= key <= v) || v + 4 > |bs| then Panic else
    var value := Add32(v, 4);
    var end := Add32(value, GetInt32(bs, v));
    if 0 <= value <= end <= |bs| then Got(HeaderRead(bs[key..v], bs[value..end], end)) else Panic
  }

  /** The loop over the headers, given what is read at each position. */
  function HeadersFrom(at: int -> Read<HeaderRead>, n: int, count: nat, acc: map<seq<Byte>, seq<Byte>>):
      Read<map<seq<Byte>, seq<Byte>>>
    decreases count
  {
    if count == 0 then Got(acc) else
    var h := at(n);
    if h.Panic? then Panic else HeadersFrom(at, h.value.next, count - 1, acc[h.value.key := h.value.value])
  }

  function Reader(bs: seq<Byte>): int -> Read<HeaderRead> {
    (n: int) => if Int32(n) then HeaderAt(bs, n) else Panic
  }

  function HeadersOf(bs: seq<Byte>): Read<map<seq<Byte>, seq<Byte>>> {
    var g := ValueField(bs);
    if g.Panic? || g.value.1 < 0 || g.value.1 + 2 > |bs| then Panic
    else HeadersFrom(Reader(bs), Add32(g.value.1, 2), GetUInt(bs, g.value.1, 2), map[])
  }

  /** The accessor's own loop. */
  method CollectHeaders(at: int -> Read<HeaderRead>, start: int, count: nat)
      returns (r: Read<map<seq<Byte>, seq<Byte>>>)
    ensures r == HeadersFrom(at, start, count, map[])
  {
    var n, headers := start, map[];
    for i := 0 to count
      invariant HeadersFrom(at, n, count - i, headers) == HeadersFrom(at, start, count, map[])
    {
      var h := at(n);
      if h.Panic? {
        return Panic;
      }
      headers, n := headers[h.value.key := h.value.value], h.value.next;
    }
    return Got(headers);
  }

  method ReadHeaders(bs: seq<Byte>) returns (r: Read<map<seq<Byte>, seq<Byte>>>)
    ensures r == HeadersOf(bs)
  {
    var g := ValueField(bs);
    if g.Panic? || g.value.1 < 0 || g.value.1 + 2 > |bs| {
      return Panic;
    }
    r := CollectHeaders(Reader(bs), Add32(g.value.1, 2), GetUInt(bs, g.value.1, 2));
  }

  // ---------------------------------------------------------------- reading back

  lemma {:induction false} PrefixAndRest<T>(a: seq<T>, w: seq<T>, v: seq<T>, b: seq<T>)
    ensures var bs := a + (w + v) + b; bs[|a|..|a| + |w|] == w && bs[|a| + |w|..|a| + |w| + |v|] == v
  {
  }

  /** A blob lies at `at`, with its length before it. */
  ghost predicate BlobLies(bs: seq<Byte>, at: nat, o: Blob) {
    && at + BlobSize(o) <= |bs| && GetInt32(bs, at) == (if o.None? then -1 else |o.value|)
    && (o.Some? ==> bs[at + 4..at + BlobSize(o)] == o.value)
  }

  lemma {:induction false} BlobReadsBack(a: seq<Byte>, o: Blob, b: seq<Byte>)
    requires ShortBlob(o)
    ensures BlobLies(a + BlobBytes(o) + b, |a|, o)
  {
    var size := if o.None? then -1 else |o.value|;
    var v := if o.None? then [] else o.value;
    var w := PutInt32(size);
    assert BlobBytes(o) == w + v;
    PrefixAndRest(a, w, v, b);
    Widths();
    ReadBack(Unsigned(size, U32), 4);
    GetIsUInt(a + BlobBytes(o) + b, |a|, 4);
  }

  /** The end of a blob is right as long as it is below 2^31; from there to 2^32 it is negative. */
  lemma {:induction false} BlobEnd(bs: seq<Byte>, at: nat, o: Blob)
    requires BlobLies(bs, at, o) && ShortBlob(o) && Int32(at)
    ensures var end := at + BlobSize(o); var f := BlobAt(bs, at);
            && f.Got? && f.value.1 == (if o.None? then -1 else |o.value|)
            && (end < I32 ==> f.value.0 == end) && (I32 <= end < U32 ==> f.value.0 < 0)
            && (Contents(bs, at, f.value.0, f.value.1) == Got(o) <==> o.None? || end < I32)
  {
  }

  /** Where key and value lie, and that they read back exactly as long as they end below 2^31. */
  lemma {:induction false} FieldsReadBack(bs: seq<Byte>, k: Blob, v: Blob)
    requires ShortBlob(k) && ShortBlob(v) && BlobLies(bs, 6, k) && BlobLies(bs, 6 + BlobSize(k), v)
    ensures var n := 6 + BlobSize(k); var end := n + BlobSize(v); var f := ValueField(bs);
            && (KeyOf(bs) == Got(k) <==> n < I32)
            && (ValueOf(bs) == Got(v) <==> if v.None? then n < I32 else end < I32)
            && (end < I32 ==> f.Got? && f.value.1 == end)
            && (I32 <= end < U32 ==> f.Panic? || f.value.1 < 0)
  {
    BlobEnd(bs, 6, k);
    if 6 + BlobSize(k) < I32 {
      BlobEnd(bs, 6 + BlobSize(k), v);
    }
  }

  /** Key and value of a header lie at `n`. */
  ghost predicate HeaderLies(bs: seq<Byte>, n: nat, k: seq<Byte>, o: Blob) {
    var v := n + 2 + |k|;
    v <= |bs| && GetUInt(bs, n, 2) == |k| && bs[n + 2..v] == k && BlobLies(bs, v, o)
  }

  /** A header reads back if it is not nil and ends below 2^31. */
  ghost function Expected(h: Header, n: nat): Read<HeaderRead> {
    if h.1.None? || n + HeaderSize(h) >= I32 then Panic else Got(HeaderRead(h.0, h.1.value, n + HeaderSize(h)))
  }

  lemma {:induction false} HeaderOfFields(bs: seq<Byte>, n: nat, h: Header)
    requires HeaderLies(bs, n, h.0, h.1) && Int32(n)
    ensures HeaderAt(bs, n) == Expected(h, n)
  {
  }

  lemma {:induction false} StringReadsBack(a: seq<Byte>, k: seq<Byte>, b: seq<Byte>)
    requires |k| < I16
    ensures var bs := a + StringBytes(k) + b; GetUInt(bs, |a|, 2) == |k| && bs[|a| + 2..|a| + 2 + |k|] == k
  {
    Widths();
    ReadBack(|k|, 2);
    PrefixAndRest(a, BE(|k|, 2), k, b);
    GetIsUInt(a + StringBytes(k) + b, |a|, 2);
  }

  lemma {:induction false} HeaderReadsBack(a: seq<Byte>, h: Header, b: seq<Byte>)
    ensures HeaderLies(a + OneHeader(h) + b, |a|, h.0, h.1)
  {
    var s, t := StringBytes(h.0), BlobBytes(h.1);
    StringReadsBack(a, h.0, t + b);
    BlobReadsBack(a + s, h.1, b);
    Regroup(a, s, t, b);
  }

  lemma {:induction false} Regroup<T>(a: seq<T>, s: seq<T>, t: seq<T>, b: seq<T>)
    ensures a + (s + t) + b == a + s + (t + b)
    ensures a + (s + t) + b == (a + s) + t + b
  {
  }

  /** The headers a reader is given: those visited, unless one of them is nil or ends at 2^31 or later. */
  ghost function Collected(hs: seq<Header>, pos: seq<nat>, k: nat, end: nat, acc: map<seq<Byte>, seq<Byte>>):
      Read<map<seq<Byte>, seq<Byte>>>
    requires k <= end <= |hs| && |pos| == |hs| + 1
    decreases end - k
  {
    if k == end then Got(acc)
    else if hs[k].1.None? || pos[k + 1] >= I32 then Panic
    else Collected(hs, pos, k + 1, end, acc[hs[k].0 := hs[k].1.value])
  }

  lemma {:induction false} HeaderStep(bs: seq<Byte>, a: seq<Byte>, h: Header, rest: seq<Byte>)
    requires bs == a + OneHeader(h) + rest && Int32(|a|)
    ensures HeaderAt(bs, |a|) == Expected(h, |a|)
  {
    HeaderReadsBack(a, h, rest);
    HeaderOfFields(bs, |a|, h);
  }

  lemma {:induction false} Around(p: seq<Byte>, blocks: seq<seq<Byte>>, k: nat) returns (a: seq<Byte>, b: seq<Byte>)
    requires k < |blocks|
    ensures p + Flat(blocks) == a + blocks[k] + b && |a| == |p| + Start(blocks, k)
  {
    FlatAround(blocks, k);
    a, b := p + Flat(blocks[..k]), Flat(blocks[k + 1..]);
  }

  /** From `n` on, `bs` holds exactly `tail`. */
  ghost predicate Holds(bs: seq<Byte>, n: nat, tail: seq<Byte>) {
    |bs| == n + |tail| && forall i :: 0 <= i < |tail| ==> tail[i] == bs[n + i]
  }

  lemma {:induction false} HoldsPrefix(bs: seq<Byte>, n: nat, tail: seq<Byte>) returns (p: seq<Byte>)
    requires Holds(bs, n, tail)
    ensures bs == p + tail && |p| == n
  {
    p := bs[..n];
    assert forall i :: 0 <= i < |bs| ==> bs[i] == if i < n then p[i] else tail[i - n];
  }

  lemma {:induction false} HeaderWithin(bs: seq<Byte>, n: nat, hs: seq<Header>, k: nat)
      returns (a: seq<Byte>, b: seq<Byte>)
    requires k < |hs| && Holds(bs, n, HeaderBytes(hs))
    ensures bs == a + OneHeader(hs[k]) + b && |a| == n + Start(HeaderBlocks(hs), k)
  {
    var p := HoldsPrefix(bs, n, HeaderBytes(hs));
    a, b := Around(p, HeaderBlocks(hs), k);
  }

  /** Every header reads back where the blocks before it end. */
  lemma {:induction false} EachReads(bs: seq<Byte>, n: nat, hs: seq<Header>, k: nat, at: nat)
    requires k < |hs| && Holds(bs, n, HeaderBytes(hs)) && at == n + Start(HeaderBlocks(hs), k)
    ensures Reader(bs)(at) == Expected(hs[k], at)
  {
    var a, b := HeaderWithin(bs, n, hs, k);
    if at < I32 {
      HeaderStep(bs, a, hs[k], b);
    }
  }

  /** Header `k` reads as written, at the given positions. */
  ghost predicate PointReads(at: int -> Read<HeaderRead>, pos: seq<nat>, hs: seq<Header>, k: nat)
    requires k < |hs| && |pos| == |hs| + 1
  {
    pos[k + 1] == pos[k] + HeaderSize(hs[k]) && at(pos[k]) == Expected(hs[k], pos[k])
  }

  ghost predicate AllRead(at: int -> Read<HeaderRead>, pos: seq<nat>, hs: seq<Header>) {
    |pos| == |hs| + 1 && forall k :: 0 <= k < |hs| ==> PointReads(at, pos, hs, k)
  }

  lemma {:induction false} HeadersReadBack(at: int -> Read<HeaderRead>, pos: seq<nat>, hs: seq<Header>, k: nat,
        end: nat,
      acc: map<seq<Byte>, seq<Byte>>)
    requires k <= end <= |hs| && AllRead(at, pos, hs)
    ensures HeadersFrom(at, pos[k], end - k, acc) == Collected(hs, pos, k, end, acc)
    decreases end - k
  {
    if k == end {
    } else {
      assert PointReads(at, pos, hs, k);
      if hs[k].1.Some? {
        HeadersReadBack(at, pos, hs, k + 1, end, acc[hs[k].0 := hs[k].1.value]);
      }
    }
  }

  // ---------------------------------------------------------------- the round trip

  lemma {:induction false} Grouped<T>(c: seq<T>, p: seq<T>, k: seq<T>, v: seq<T>, r: seq<T>)
    ensures c + (p + k + v + r) == (c + p) + k + v + r
  {
  }

  /** What precedes and follows the key and the value. */
  lemma {:induction false} Shape(m: Message, hs: seq<Header>, crc: Digest) returns (q: seq<Byte>)
    requires ShortBlob(m.key) && ShortBlob(m.value)
    ensures |q| == 6
    ensures Encoded(m, hs, crc) == q + BlobBytes(m.key) + BlobBytes(m.value) + (BE(|hs| % U16, 2) + HeaderBytes(hs))
  {
    var c, p := BE(crc(Body(m, hs)), 4), [Int8Byte(m.magic), Int8Byte(m.attributes)];
    q := c + p;
    Grouped(c, p, BlobBytes(m.key), BlobBytes(m.value), BE(|hs| % U16, 2) + HeaderBytes(hs));
  }

  lemma {:induction false} FieldsLie(p: seq<Byte>, k: Blob, v: Blob, rest: seq<Byte>)
    requires |p| == 6 && ShortBlob(k) && ShortBlob(v)
    ensures var bs := p + BlobBytes(k) + BlobBytes(v) + rest; BlobLies(bs, 6, k) && BlobLies(bs, 6 + BlobSize(k), v)
  {
    BlobReadsBack(p, k, BlobBytes(v) + rest);
    assert p + BlobBytes(k) + BlobBytes(v) + rest == p + BlobBytes(k) + (BlobBytes(v) + rest);
    BlobReadsBack(p + BlobBytes(k), v, rest);
  }

  lemma {:induction false} EncodedFieldsLie(m: Message, hs: seq<Header>, crc: Digest)
    requires ShortBlob(m.key) && ShortBlob(m.value)
    ensures BlobLies(Encoded(m, hs, crc), 6, m.key) && BlobLies(Encoded(m, hs, crc), 6 + BlobSize(m.key), m.value)
  {
    var q := Shape(m, hs, crc);
    FieldsLie(q, m.key, m.value, BE(|hs| % U16, 2) + HeaderBytes(hs));
  }

  /** The key reads back if and only if it ends below 2^31, and the value if and only if it, or its length prefix if it
      is nil, begins and ends there; a nil one as nil, an empty one as empty. */
  lemma {:induction false} KeyAndValueSurvive(m: Message, hs: seq<Header>, crc: Digest)
    requires ShortBlob(m.key) && ShortBlob(m.value)
    ensures KeyOf(Encoded(m, hs, crc)) == Got(m.key) <==> 6 + BlobSize(m.key) < I32
    ensures ValueOf(Encoded(m, hs, crc)) == Got(m.value) <==>
              6 + BlobSize(m.key) + (if m.value.None? then 0 else BlobSize(m.value)) < I32
  {
    EncodedFieldsLie(m, hs, crc);
    FieldsReadBack(Encoded(m, hs, crc), m.key, m.value);
  }

  ghost function Positions(n: nat, blocks: seq<seq<Byte>>): (pos: seq<nat>)
    ensures |pos| == |blocks| + 1 && forall k :: 0 <= k <= |blocks| ==> pos[k] == n + Start(blocks, k)
  {
    seq(|blocks| + 1, k requires 0 <= k <= |blocks| => n + Start(blocks, k))
  }

  lemma {:induction false} PositionsStep(n: nat, hs: seq<Header>, k: nat)
    requires k < |hs|
    ensures var pos := Positions(n, HeaderBlocks(hs)); pos[k + 1] == pos[k] + HeaderSize(hs[k])
  {
    FlatAround(HeaderBlocks(hs), k);
  }

  lemma {:induction false} ReadsAtPosition(bs: seq<Byte>, n: nat, hs: seq<Header>, k: nat)
    requires k < |hs| && Holds(bs, n, HeaderBytes(hs))
    ensures var at := Positions(n, HeaderBlocks(hs))[k]; Reader(bs)(at) == Expected(hs[k], at)
  {
    EachReads(bs, n, hs, k, Positions(n, HeaderBlocks(hs))[k]);
  }

  lemma {:induction false} WrittenPoint(bs: seq<Byte>, n: nat, hs: seq<Header>, k: nat)
    requires k < |hs| && Holds(bs, n, HeaderBytes(hs))
    ensures PointReads(Reader(bs), Positions(n, HeaderBlocks(hs)), hs, k)
  {
    ReadsAtPosition(bs, n, hs, k);
    PositionsStep(n, hs, k);
  }

  lemma {:induction false} WrittenHeadersRead(bs: seq<Byte>, n: nat, hs: seq<Header>, pos: seq<nat>)
    requires Holds(bs, n, HeaderBytes(hs)) && pos == Positions(n, HeaderBlocks(hs))
    ensures AllRead(Reader(bs), pos, hs) && pos[0] == n
  {
    assert HeaderBlocks(hs)[..0] == [];
    forall k: nat | k < |hs| ensures PointReads(Reader(bs), pos, hs, k) {
      WrittenPoint(bs, n, hs, k);
    }
  }

  lemma {:induction false} CountReadsBack(bs: seq<Byte>, q: seq<Byte>, count: nat, h: seq<Byte>)
    requires bs == q + (BE(count, 2) + h) && count < U16
    ensures Holds(bs, |q| + 2, h) && GetUInt(bs, |q|, 2) == count
  {
    var w := BE(count, 2);
    assert q + (w + h) == q + w + h;
    Widths();
    FieldReadsBack(q, count, 2, h);
  }

  lemma {:induction false} ShapeTail(m: Message, hs: seq<Header>, crc: Digest) returns (q: seq<Byte>)
    requires ShortBlob(m.key) && ShortBlob(m.value)
    ensures |q| == 6 + BlobSize(m.key) + BlobSize(m.value)
    ensures Encoded(m, hs, crc) == q + (BE(|hs| % U16, 2) + HeaderBytes(hs))
  {
    var p := Shape(m, hs, crc);
    q := p + BlobBytes(m.key) + BlobBytes(m.value);
  }

  lemma {:induction false} EncodedCount(m: Message, hs: seq<Header>, crc: Digest)
    requires ShortBlob(m.key) && ShortBlob(m.value)
    ensures var bs := Encoded(m, hs, crc); var n := 6 + BlobSize(m.key) + BlobSize(m.value);
            Holds(bs, n + 2, HeaderBytes(hs)) && GetUInt(bs, n, 2) == |hs| % U16
  {
    var q := ShapeTail(m, hs, crc);
    CountReadsBack(Encoded(m, hs, crc), q, |hs| % U16, HeaderBytes(hs));
  }

  /** The headers begin at `n`, and the count field before them announces `count`. */
  ghost predicate HeadersFollow(bs: seq<Byte>, n: nat, hs: seq<Header>, count: nat) {
    && Holds(bs, n, HeaderBytes(hs)) && count <= |hs| && 2 <= n && n - 2 < I32
    && ValueField(bs).Got? && ValueField(bs).value.1 == n - 2 && GetUInt(bs, n - 2, 2) == count
  }

  lemma {:induction false} EncodedHeadersFollow(m: Message, hs: seq<Header>, crc: Digest)
    requires ShortBlob(m.key) && ShortBlob(m.value) && 6 + BlobSize(m.key) + BlobSize(m.value) < I32
    ensures HeadersFollow(Encoded(m, hs, crc), 8 + BlobSize(m.key) + BlobSize(m.value), hs, |hs| % U16)
  {
    EncodedFieldsLie(m, hs, crc);
    FieldsReadBack(Encoded(m, hs, crc), m.key, m.value);
    EncodedCount(m, hs, crc);
  }

  lemma {:induction false} LastPosition(n: nat, hs: seq<Header>)
    ensures Positions(n, HeaderBlocks(hs))[|hs|] == n + HeaderSizes(hs)
  {
    assert HeaderBlocks(hs)[..|hs|] == HeaderBlocks(hs);
    HeaderBytesSize(hs);
  }

  lemma {:induction false} PositionsRead(bs: seq<Byte>, n: nat, hs: seq<Header>) returns (pos: seq<nat>)
    requires Holds(bs, n, HeaderBytes(hs))
    ensures AllRead(Reader(bs), pos, hs) && pos[0] == n && pos[|hs|] == n + HeaderSizes(hs)
  {
    pos := Positions(n, HeaderBlocks(hs));
    LastPosition(n, hs);
    WrittenHeadersRead(bs, n, hs, pos);
  }

  lemma {:induction false} LoopReadsBack(at: int -> Read<HeaderRead>, n: nat, hs: seq<Header>, pos: seq<nat>,
        count: nat)
    requires AllRead(at, pos, hs) && pos[0] == n && count <= |hs| && 2 <= n && n - 2 < I32
    requires forall k: int :: k < 0 ==> at(k).Panic?
    ensures HeadersFrom(at, Add32(n - 2, 2), count, map[]) == Collected(hs, pos, 0, count, map[])
  {
    if n < I32 {
      HeadersReadBack(at, pos, hs, 0, count, map[]);
    } else if count > 0 {
      assert PointReads(at, pos, hs, 0);
      assert at(Add32(n - 2, 2)).Panic?;
    }
  }

  lemma {:induction false} HeadersOfBytes(bs: seq<Byte>, n: nat, hs: seq<Header>, pos: seq<nat>, count: nat)
    requires HeadersFollow(bs, n, hs, count) && AllRead(Reader(bs), pos, hs) && pos[0] == n
    ensures HeadersOf(bs) == Collected(hs, pos, 0, count, map[])
  {
    LoopReadsBack(Reader(bs), n, hs, pos, count);
  }

  /** What was read agrees with the message's own headers. */
  ghost predicate Agrees(read: map<seq<Byte>, seq<Byte>>, m: Message) {
    forall k <- read :: k in m.headers && m.headers[k] == Some(read[k])
  }

  /** A header that is nil or ends too late makes the reader panic. */
  lemma {:induction false} BadHeaderPanics(hs: seq<Header>, pos: seq<nat>, k: nat, end: nat,
      acc: map<seq<Byte>, seq<Byte>>, i: nat)
    requires k <= i < end <= |hs| && |pos| == |hs| + 1 && (hs[i].1.None? || pos[i + 1] >= I32)
    ensures Collected(hs, pos, k, end, acc).Panic?
    decreases end - k
  {
    if k < i && hs[k].1.Some? {
      BadHeaderPanics(hs, pos, k + 1, end, acc[hs[k].0 := hs[k].1.value], i);
    }
  }

  ghost predicate Own(hs: seq<Header>, m: Message) {
    forall i :: 0 <= i < |hs| ==> hs[i].0 in m.headers && m.headers[hs[i].0] == hs[i].1
  }

  ghost predicate GoodHeader(hs: seq<Header>, pos: seq<nat>, i: nat)
    requires i < |hs| && |pos| == |hs| + 1
  {
    hs[i].1.Some? && pos[i + 1] < I32
  }

  lemma {:induction false} CollectsOwn(m: Message, hs: seq<Header>, pos: seq<nat>, k: nat, end: nat,
      acc: map<seq<Byte>, seq<Byte>>)
    requires k <= end <= |hs| && |pos| == |hs| + 1 && Agrees(acc, m) && Own(hs, m)
    requires forall i :: k <= i < end ==> GoodHeader(hs, pos, i)
    ensures var r := Collected(hs, pos, k, end, acc); r.Got? && Agrees(r.value, m)
    decreases end - k
  {
    if k == end {
    } else {
      assert GoodHeader(hs, pos, k);
      CollectsOwn(m, hs, pos, k + 1, end, acc[hs[k].0 := hs[k].1.value]);
    }
  }

  lemma {:induction false} CollectsAll(hs: seq<Header>, pos: seq<nat>, k: nat, end: nat, acc: map<seq<Byte>, seq<Byte>>)
    requires k <= end <= |hs| && |pos| == |hs| + 1
    ensures var r := Collected(hs, pos, k, end, acc);
            r.Got? ==> && |r.value| <= |acc| + end - k && acc.Keys <= r.value.Keys
                       && forall i :: k <= i < end ==> hs[i].0 in r.value.Keys
    decreases end - k
  {
    if k < end && hs[k].1.Some? {
      Added(acc, hs[k].0, hs[k].1.value);
      CollectsAll(hs, pos, k + 1, end, acc[hs[k].0 := hs[k].1.value]);
    }
  }

  lemma {:induction false} Added<K, V>(acc: map<K, V>, x: K, v: V)
    ensures var next := acc[x := v]; next.Keys == acc.Keys + {x} && |next| <= |acc| + 1
  {
  }

  /** All headers come back, each with its value. */
  ghost predicate Restored(r: Read<map<seq<Byte>, seq<Byte>>>, m: Message) {
    r.Got? && r.value.Keys == m.headers.Keys && Agrees(r.value, m)
  }

  predicate NoNil(m: Message) {
    forall k <- m.headers :: m.headers[k].Some?
  }

  lemma {:induction false} PositionsRise(at: int -> Read<HeaderRead>, pos: seq<nat>, hs: seq<Header>, i: nat, j: nat)
    requires AllRead(at, pos, hs) && i <= j <= |hs|
    ensures pos[i] <= pos[j]
    decreases j
  {
    if i == j {
    } else {
      PositionsRise(at, pos, hs, i, j - 1);
      assert PointReads(at, pos, hs, j - 1);
    }
  }

  lemma {:induction false} Restores(m: Message, hs: seq<Header>, pos: seq<nat>)
    requires Visits(hs, m) && |pos| == |hs| + 1 && forall i :: 0 <= i < |hs| ==> GoodHeader(hs, pos, i)
    ensures Restored(Collected(hs, pos, 0, |hs|, map[]), m)
  {
    VisitsAll(hs, m);
    assert forall i :: 0 <= i < |hs| ==> hs[i] in hs;
    CollectsOwn(m, hs, pos, 0, |hs|, map[]);
    CollectsAll(hs, pos, 0, |hs|, map[]);
    var r := Collected(hs, pos, 0, |hs|, map[]);
    forall k | k in m.headers.Keys ensures k in r.value.Keys {
      assert (k, m.headers[k]) in hs;
    }
  }

  lemma {:induction false} AllGood(m: Message, hs: seq<Header>, at: int -> Read<HeaderRead>, pos: seq<nat>, i: nat)
    requires Visits(hs, m) && NoNil(m) && AllRead(at, pos, hs) && i < |hs| && pos[|hs|] < I32
    ensures GoodHeader(hs, pos, i)
  {
    VisitsAll(hs, m);
    assert hs[i] in hs;
    PositionsRise(at, pos, hs, i + 1, |hs|);
  }

  lemma {:induction false} LosesNil(m: Message, hs: seq<Header>, pos: seq<nat>)
    requires Visits(hs, m) && !NoNil(m) && |pos| == |hs| + 1
    ensures Collected(hs, pos, 0, |hs|, map[]).Panic?
  {
    VisitsAll(hs, m);
    var k :| k in m.headers && m.headers[k].None?;
    assert (k, m.headers[k]) in hs;
    var i :| 0 <= i < |hs| && hs[i] == (k, m.headers[k]);
    BadHeaderPanics(hs, pos, 0, |hs|, map[], i);
  }

  lemma {:induction false} LosesMany(m: Message, hs: seq<Header>, pos: seq<nat>, count: nat)
    requires Visits(hs, m) && count < |hs| && |pos| == |hs| + 1
    ensures !Restored(Collected(hs, pos, 0, count, map[]), m)
  {
    VisitsAll(hs, m);
    CollectsAll(hs, pos, 0, count, map[]);
    var r := Collected(hs, pos, 0, count, map[]);
    assert |m.headers.Keys| == |m.headers|;
    assert r.Got? ==> |r.value.Keys| == |r.value|;
  }

  lemma {:induction false} RestoredWhen(m: Message, hs: seq<Header>, at: int -> Read<HeaderRead>, pos: seq<nat>)
    requires Visits(hs, m) && AllRead(at, pos, hs)
    ensures Restored(Collected(hs, pos, 0, |hs| % U16, map[]), m) <==>
              |m.headers| < U16 && NoNil(m) && (hs == [] || pos[|hs|] < I32)
  {
    VisitsAll(hs, m);
    if |hs| >= U16 {
      LosesMany(m, hs, pos, |hs| % U16);
    } else if !NoNil(m) {
      LosesNil(m, hs, pos);
    } else if hs != [] && pos[|hs|] >= I32 {
      BadHeaderPanics(hs, pos, 0, |hs|, map[], |hs| - 1);
    } else {
      forall i | 0 <= i < |hs| ensures GoodHeader(hs, pos, i) {
        AllGood(m, hs, at, pos, i);
      }
      Restores(m, hs, pos);
    }
  }

  /** The accessor's 32-bit positions do not overflow. */
  predicate Fits(m: Message, bs: seq<Byte>) {
    6 + BlobSize(m.key) + BlobSize(m.value) < I32 && (m.headers != map[] ==> |bs| < I32)
  }

  /** Headers survive when there are fewer than 2^16 of them, none is nil and the message is shorter than 2^31 bytes;
      and as long as key and value end below 2^32, only then. */
  lemma {:induction false} HeadersSurvive(m: Message, hs: seq<Header>, crc: Digest)
    requires Encodable(m) && Visits(hs, m)
    ensures |m.headers| < U16 && NoNil(m) && Fits(m, Encoded(m, hs, crc)) ==>
            Restored(HeadersOf(Encoded(m, hs, crc)), m)
    ensures 6 + BlobSize(m.key) + BlobSize(m.value) < U32 && Restored(HeadersOf(Encoded(m, hs, crc)), m) ==>
              |m.headers| < U16 && NoNil(m) && Fits(m, Encoded(m, hs, crc))
  {
    if 6 + BlobSize(m.key) + BlobSize(m.value) < I32 {
      EncodedHeadersFollow(m, hs, crc);
      SurviveIn(Encoded(m, hs, crc), 8 + BlobSize(m.key) + BlobSize(m.value), m, hs);
    } else if 6 + BlobSize(m.key) + BlobSize(m.value) < U32 {
      LongPanics(m, hs, crc);
    }
  }

  lemma {:induction false} SurviveIn(bs: seq<Byte>, n: nat, m: Message, hs: seq<Header>)
    requires Visits(hs, m) && HeadersFollow(bs, n, hs, |hs| % U16)
    ensures Restored(HeadersOf(bs), m) <==> |m.headers| < U16 && NoNil(m) && (m.headers != map[] ==> |bs| < I32)
  {
    VisitsAll(hs, m);
    HeaderBytesSize(hs);
    var pos := PositionsRead(bs, n, hs);
    HeadersOfBytes(bs, n, hs, pos, |hs| % U16);
    RestoredWhen(m, hs, Reader(bs), pos);
  }

  lemma {:induction false} LongPanics(m: Message, hs: seq<Header>, crc: Digest)
    requires ShortBlob(m.key) && ShortBlob(m.value) && I32 <= 6 + BlobSize(m.key) + BlobSize(m.value) < U32
    ensures HeadersOf(Encoded(m, hs, crc)).Panic?
  {
    EncodedFieldsLie(m, hs, crc);
    FieldsReadBack(Encoded(m, hs, crc), m.key, m.value);
  }

  /** Where the value's end wraps around twice it is among the first bytes again. */
  lemma {:induction false} EndWraps(bs: seq<Byte>, k: Blob, v: Blob)
    requires ShortBlob(k) && ShortBlob(v) && BlobLies(bs, 6, k) && BlobLies(bs, 6 + BlobSize(k), v)
    requires 6 + BlobSize(k) < I32 && U32 <= 6 + BlobSize(k) + BlobSize(v)
    ensures ValueField(bs).Got? && ValueField(bs).value.1 == 6 + BlobSize(k) + BlobSize(v) - U32 <= 2
  {
    BlobEnd(bs, 6, k);
  }

  lemma {:induction false} ReadsSome(at: int -> Read<HeaderRead>, n: int, count: nat, acc: map<seq<Byte>, seq<Byte>>)
    requires count > 0 || acc != map[]
    ensures var r := HeadersFrom(at, n, count, acc); r.Got? ==> r.value != map[]
    decreases count
  {
    if count == 0 {
    } else {
      var h := at(n);
      if h.Got? {
        assert h.value.key in acc[h.value.key := h.value.value];
        ReadsSome(at, h.value.next, count - 1, acc[h.value.key := h.value.value]);
      }
    }
  }

  /** For a message without headers whose value ends at 2^32 or later, the count is read from the first bytes, so that
      what comes back depends on the checksum. */
  lemma {:induction false} WrappedHeaders(m: Message, hs: seq<Header>, crc: Digest)
    requires ShortBlob(m.key) && ShortBlob(m.value) && m.headers == map[]
    requires 6 + BlobSize(m.key) < I32 && U32 <= 6 + BlobSize(m.key) + BlobSize(m.value)
    ensures var bs := Encoded(m, hs, crc); var n := 6 + BlobSize(m.key) + BlobSize(m.value) - U32;
            n + 2 <= |bs| && (Restored(HeadersOf(bs), m) <==> GetUInt(bs, n, 2) == 0)
  {
    EncodedFieldsLie(m, hs, crc);
    WrappedIn(Encoded(m, hs, crc), m);
  }

  lemma {:induction false} WrappedIn(bs: seq<Byte>, m: Message)
    requires ShortBlob(m.key) && ShortBlob(m.value) && m.headers == map[]
    requires BlobLies(bs, 6, m.key) && BlobLies(bs, 6 + BlobSize(m.key), m.value)
    requires 6 + BlobSize(m.key) < I32 && U32 <= 6 + BlobSize(m.key) + BlobSize(m.value)
    ensures var n := 6 + BlobSize(m.key) + BlobSize(m.value) - U32;
            n + 2 <= |bs| && (Restored(HeadersOf(bs), m) <==> GetUInt(bs, n, 2) == 0)
  {
    EndWraps(bs, m.key, m.value);
    var n := ValueField(bs).value.1;
    var count := GetUInt(bs, n, 2);
    if count > 0 {
      ReadsSome(Reader(bs), n + 2, count, map[]);
    }
    var r := HeadersOf(bs);
    assert r == HeadersFrom(Reader(bs), n + 2, count, map[]);
    assert r.Got? ==> (r.value == map[] <==> r.value.Keys == {});
  }

  /** A byte as a signed integer. */
  function AsInt8(b: Byte): int {
    if b < 128 then b else b - 256
  }

  /** The stored checksum is that of everything after it, and the two flag bytes follow. */
  lemma {:induction false} CrcMatches(m: Message, hs: seq<Header>, crc: Digest)
    requires ShortBlob(m.key) && ShortBlob(m.value)
    ensures var bs := Encoded(m, hs, crc);
            && GetUInt(bs, 0, 4) == crc(bs[4..])
            && AsInt8(bs[4]) == m.magic && AsInt8(bs[5]) == m.attributes
  {
    var w, body := BE(crc(Body(m, hs)), 4), Body(m, hs);
    var bs := Encoded(m, hs, crc);
    Widths();
    FieldReadsBack([], crc(body), 4, body);
    assert [] + w + body == bs;
    assert bs[4..] == body;
    assert body[0] == Int8Byte(m.magic) && body[1] == Int8Byte(m.attributes);
  }
}

/** Message sets: how a batch is laid out in bytes, and how its index entries are read back from them. */
module MessageSet {
  import opened Integers
  import opened Bytes
  import opened Sequences

  const HEADER_LEN: nat := 28

  datatype AnyFrame = Frame(offset: int, timestamp: int, leaderEpoch: nat, payload: seq<Byte>)

  predicate Fits(f: AnyFrame) {
    Int64(f.offset) && Int64(f.timestamp) && f.leaderEpoch < U64 && |f.payload| < I32 - HEADER_LEN
  }

  /** One message of a set: the fields of its header, each within its width, and the serialized message. */
  type Frame = f: AnyFrame | Fits(f) witness Frame(0, 0, 0, [])

  /** An index entry. */
  datatype Entry = Entry(offset: int, timestamp: int, leaderEpoch: nat, position: int, size: int)

  function FrameBytes(f: Frame): (bs: seq<Byte>)
    ensures |bs| == HEADER_LEN + |f.payload|
  {
    PutInt64(f.offset) + PutInt64(f.timestamp) + BE(f.leaderEpoch, 8) + BE(|f.payload|, 4) + f.payload
  }

  function Blocks(fs: seq<Frame>): (bs: seq<seq<Byte>>)
    ensures |bs| == |fs| && forall i :: 0 <= i < |fs| ==> bs[i] == FrameBytes(fs[i])
  {
    seq(|fs|, i requires 0 <= i < |fs| => FrameBytes(fs[i]))
  }

  function SetBytes(fs: seq<Frame>): seq<Byte> {
    Flat(Blocks(fs))
  }

  /** Where frame `k` begins: the sum of the sizes before it. */
  function Position(fs: seq<Frame>, k: nat): nat
    requires k <= |fs|
  {
    Start(Blocks(fs), k)
  }

  function EntryOf(f: Frame, position: int): Entry {
    Entry(f.offset, f.timestamp, f.leaderEpoch, position, |f.payload| + HEADER_LEN)
  }

  /** The index entries of a set stored at `base`. */
  function EntriesOf(fs: seq<Frame>, base: int): (es: seq<Entry>)
    ensures |es| == |fs|
    ensures forall i :: 0 <= i < |fs| ==> es[i] == EntryOf(fs[i], base + Position(fs, i))
  {
    seq(|fs|, i requires 0 <= i < |fs| => EntryOf(fs[i], base + Position(fs, i)))
  }

  lemma {:induction false} SetAppend(fs: seq<Frame>, gs: seq<Frame>)
    ensures SetBytes(fs + gs) == SetBytes(fs) + SetBytes(gs)
  {
    assert Blocks(fs + gs) == Blocks(fs) + Blocks(gs);
    FlatConcat(Blocks(fs), Blocks(gs));
  }

  lemma {:induction false} EntriesAppend(fs: seq<Frame>, gs: seq<Frame>)
    ensures EntriesOf(fs + gs, 0) == EntriesOf(fs, 0) + EntriesOf(gs, |SetBytes(fs)|)
  {
    var es := EntriesOf(fs + gs, 0);
    forall i | 0 <= i < |es| ensures es[i] == (EntriesOf(fs, 0) + EntriesOf(gs, |SetBytes(fs)|))[i] {
      PositionAppend(fs, gs, i);
      assert Position(gs, 0) == 0 by { assert Blocks(gs)[..0] == []; }
      assert i == |fs| ==> Position(fs, i) == |SetBytes(fs)| by { assert Blocks(fs)[..|fs|] == Blocks(fs); }
    }
  }

  lemma {:induction false} PositionAppend(fs: seq<Frame>, gs: seq<Frame>, i: nat)
    requires i <= |fs| + |gs|
    ensures Position(fs + gs, i) == if i <= |fs| then Position(fs, i) else |SetBytes(fs)| + Position(gs, i - |fs|)
  {
    var a, b := Blocks(fs), Blocks(gs);
    assert Blocks(fs + gs) == a + b;
    if i <= |fs| {
      assert (a + b)[..i] == a[..i];
    } else {
      assert (a + b)[..i] == a + b[..i - |fs|];
      FlatConcat(a, b[..i - |fs|]);
    }
  }

  /** Each entry delimits exactly the bytes of its message. */
  lemma {:induction false} EntryDelimits(fs: seq<Frame>, k: nat)
    requires k < |fs|
    ensures var e := EntriesOf(fs, 0)[k];
            && 0 <= e.position <= e.position + e.size <= |SetBytes(fs)|
            && SetBytes(fs)[e.position..e.position + e.size] == FrameBytes(fs[k])
            && Position(fs, k + 1) == e.position + e.size
  {
    FlatAround(Blocks(fs), k);
  }

  // ---------------------------------------------------------------- reading a header

  lemma {:induction false} FieldsAt(a: seq<Byte>, o: seq<Byte>, t: seq<Byte>, e: seq<Byte>, s: seq<Byte>,
        p: seq<Byte>, b: seq<Byte>)
    requires |o| == |t| == |e| == 8 && |s| == 4
    ensures var bs := a + (o + t + e + s + p) + b; var k := |a|;
            bs[k..k + 8] == o && bs[k + 8..k + 16] == t && bs[k + 16..k + 24] == e && bs[k + 24..k + 28] == s &&
                bs[k + 28..k + 28 + |p|] == p
  {
  }

  lemma {:induction false} HeaderReadsBack(a: seq<Byte>, f: Frame, b: seq<Byte>)
    ensures var bs := a + FrameBytes(f) + b; var k := |a|;
            && GetInt64(bs, k) == f.offset && GetInt64(bs, k + 8) == f.timestamp
            && GetUInt(bs, k + 16, 8) == f.leaderEpoch && GetInt32(bs, k + 24) == |f.payload|
            && bs[k + 28..k + 28 + |f.payload|] == f.payload
  {
    FieldsAt(a, PutInt64(f.offset), PutInt64(f.timestamp), BE(f.leaderEpoch, 8), BE(|f.payload|, 4), f.payload, b);
    var bs, k := a + FrameBytes(f) + b, |a|;
    Int64At(bs, k, f.offset);
    Int64At(bs, k + 8, f.timestamp);
    WordAt(bs, k + 16, f.leaderEpoch, 8);
    WordAt(bs, k + 24, |f.payload|, 4);
  }

  lemma {:induction false} WordAt(bs: seq<Byte>, k: nat, n: nat, w: nat)
    requires w == 4 || w == 8
    requires n < if w == 4 then U32 else U64
    requires k + w <= |bs| && bs[k..k + w] == BE(n, w)
    ensures GetUInt(bs, k, w) == n
  {
    Widths();
    ReadBack(n, w);
    GetIsUInt(bs, k, w);
  }

  lemma {:induction false} Int64At(bs: seq<Byte>, k: nat, x: int)
    requires Int64(x) && k + 8 <= |bs| && bs[k..k + 8] == PutInt64(x)
    ensures GetInt64(bs, k) == x
  {
    WordAt(bs, k, Unsigned(x, U64), 8);
  }

  datatype Header = Header(offset: int, timestamp: int, leaderEpoch: nat, size: int)

  function HeaderAt(ms: seq<Byte>, n: nat): (h: Header)
    requires n + HEADER_LEN <= |ms|
    ensures Int32(h.size)
  {
    Header(GetInt64(ms, n), GetInt64(ms, n + 8), GetUInt(ms, n + 16, 8), GetInt32(ms, n + 24))
  }

  function EntryAt(h: Header, position: int): Entry {
    Entry(h.offset, h.timestamp, h.leaderEpoch, position, h.size + HEADER_LEN)
  }

  /** What the parser does with arbitrary bytes: a slice out of range panics, and a size of -28 never ends. */
  datatype Parsing = Panics | Loops | Entries(entries: seq<Entry>)

  function Prepend(es: seq<Entry>, rest: Parsing): Parsing {
    match rest
    case Entries(more) => Entries(es + more)
    case Panics => Panics
    case Loops => Loops
  }

  /** How far the parser goes on after a header, in 32-bit arithmetic. A negative size leads back into the header. */
  function Jump(h: Header): int
    requires Int32(h.size)
  {
    Add32(HEADER_LEN, h.size)
  }

  /** Parses the entries of the bytes from `n` on. */
  function ParseFrom(basePos: int, ms: seq<Byte>, n: nat): Parsing
    requires n <= |ms|
    decreases |ms| - n
  {
    if n == |ms| then Entries([])
    else if n + HEADER_LEN > |ms| then Panics
    else
      var h := HeaderAt(ms, n);
      var jump := Jump(h);
      if jump < 0 || n + jump > |ms| then Panics
      else if jump == 0 then Loops
      else Prepend([EntryAt(h, basePos + n)], ParseFrom(basePos, ms, n + jump))
  }

  /** `entriesForMessageSet`: nothing at all for a set no longer than one header. */
  function Parsed(basePos: int, ms: seq<Byte>): Parsing {
    if |ms| <= HEADER_LEN then Entries([]) else ParseFrom(basePos, ms, 0)
  }

  method EntriesForMessageSet(basePos: int, ms: seq<Byte>) returns (r: Parsing)
    ensures r == Parsed(basePos, ms)
  {
    if |ms| <= HEADER_LEN {
      return Entries([]);
    }
    var es: seq<Entry> := [];
    var n: nat := 0;
    assert ParseFrom(basePos, ms, 0).Entries? ==>
        [] + ParseFrom(basePos, ms, 0).entries == ParseFrom(basePos, ms, 0).entries;
    while n < |ms|
      invariant n <= |ms|
      invariant Parsed(basePos, ms) == Prepend(es, ParseFrom(basePos, ms, n))
      decreases |ms| - n
    {
      if n + HEADER_LEN > |ms| {
        return Panics;
      }
      var h := HeaderAt(ms, n);
      var jump := Jump(h);
      if jump < 0 || n + jump > |ms| {
        return Panics;
      }
      if jump == 0 {
        return Loops;
      }
      var e := EntryAt(h, basePos + n);
      ghost var rest := ParseFrom(basePos, ms, n + jump);
      assert rest.Entries? ==> es + ([e] + rest.entries) == (es + [e]) + rest.entries;
      es := es + [e];
      n := n + jump;
    }
    assert es + [] == es;
    r := Entries(es);
  }

  /** From one header on to the next, forwards or into itself. */
  ghost predicate Hops(ms: seq<Byte>, n: nat, next: nat) {
    n + HEADER_LEN <= |ms| && next == n + HEADER_LEN + GetInt32(ms, n + 24) && n < next <= |ms|
  }

  /** The entry names what the header at `n` says. */
  ghost predicate Names(e: Entry, ms: seq<Byte>, n: nat, basePos: int) {
    && n + HEADER_LEN <= |ms| && e.offset == GetInt64(ms, n) && e.timestamp == GetInt64(ms, n + 8)
    && e.leaderEpoch == GetUInt(ms, n + 16, 8)
    && e.position == basePos + n && e.size == HEADER_LEN + GetInt32(ms, n + 24)
  }

  /** How the parser ends at `p`: at the end of the bytes, at a header of size -28, or where it cannot go on. */
  ghost predicate StopsAs(r: Parsing, ms: seq<Byte>, p: nat) {
    match r
    case Entries(_) => p == |ms|
    case Loops => p + HEADER_LEN <= |ms| && HEADER_LEN + GetInt32(ms, p + 24) == 0
    case Panics => p < |ms| && (p + HEADER_LEN <= |ms| ==> !(0 <= HEADER_LEN + GetInt32(ms, p + 24) < I32) ||
                                                           p + HEADER_LEN + GetInt32(ms, p + 24) > |ms|)
  }

  /** Whatever the bytes are, the parser goes from header to header as their sizes say, until it stops. */
  lemma {:induction false} ParsingIs(basePos: int, ms: seq<Byte>, n: nat) returns (pos: seq<nat>)
    requires n <= |ms|
    ensures pos != [] && pos[0] == n && (forall i :: 0 <= i < |pos| - 1 ==> Hops(ms, pos[i], pos[i + 1]))
    ensures StopsAs(ParseFrom(basePos, ms, n), ms, pos[|pos| - 1])
    ensures var r := ParseFrom(basePos, ms, n);
            r.Entries? ==>
              |r.entries| == |pos| - 1 && forall i :: 0 <= i < |r.entries| ==> Names(r.entries[i], ms, pos[i], basePos)
    decreases |ms| - n
  {
    pos := [n];
    if n + HEADER_LEN <= |ms| {
      var jump := Jump(HeaderAt(ms, n));
      if 0 < jump && n + jump <= |ms| {
        var rest := ParsingIs(basePos, ms, n + jump);
        pos := [n] + rest;
        assert Hops(ms, n, n + jump);
      }
    }
  }

  // ---------------------------------------------------------------- parse undoes print

  lemma {:induction false} ParseStep(basePos: int, ms: seq<Byte>, n: nat, h: Header, rest: seq<Entry>)
    requires n + HEADER_LEN <= |ms| && HeaderAt(ms, n) == h && 0 <= h.size < I32 - HEADER_LEN
    requires n + HEADER_LEN + h.size <= |ms| && ParseFrom(basePos, ms, n + HEADER_LEN + h.size) == Entries(rest)
    ensures ParseFrom(basePos, ms, n) == Entries([EntryAt(h, basePos + n)] + rest)
  {
  }

  /** The header of frame `k`, and where the next one begins. */
  lemma {:induction false} FrameHeader(fs: seq<Frame>, k: nat)
    requires k < |fs|
    ensures Position(fs, k + 1) == Position(fs, k) + HEADER_LEN + |fs[k].payload| <= |SetBytes(fs)|
    ensures HeaderAt(SetBytes(fs), Position(fs, k)) == Header(fs[k].offset, fs[k].timestamp, fs[k].leaderEpoch,
            |fs[k].payload|)
  {
    FlatAround(Blocks(fs), k);
    HeaderReadsBack(Flat(Blocks(fs)[..k]), fs[k], Flat(Blocks(fs)[k + 1..]));
  }

  /** Bytes cut at `pos`, with these headers at the cuts. */
  ghost predicate Framed(ms: seq<Byte>, pos: seq<nat>, hs: seq<Header>) {
    && |pos| == |hs| + 1 && pos[|hs|] == |ms|
    && forall i :: 0 <= i < |hs| ==> FramedAt(ms, pos[i], hs[i], pos[i + 1])
  }

  ghost predicate FramedAt(ms: seq<Byte>, n: nat, h: Header, next: nat) {
    0 <= h.size < I32 - HEADER_LEN && n + HEADER_LEN + h.size == next <= |ms| && HeaderAt(ms, n) == h
  }

  lemma {:induction false} ParseSuffix(ms: seq<Byte>, pos: seq<nat>, hs: seq<Header>, basePos: int, es: seq<Entry>,
        k: nat)
    requires Framed(ms, pos, hs) && k <= |hs| == |es|
    requires forall i :: 0 <= i < |hs| ==> es[i] == EntryAt(hs[i], basePos + pos[i])
    ensures pos[k] <= |ms| && ParseFrom(basePos, ms, pos[k]) == Entries(es[k..])
    decreases |hs| - k
  {
    if k == |hs| {
    } else {
      assert FramedAt(ms, pos[k], hs[k], pos[k + 1]);
      ParseSuffix(ms, pos, hs, basePos, es, k + 1);
      ParseStep(basePos, ms, pos[k], hs[k], es[k + 1..]);
      assert es[k..] == [es[k]] + es[k + 1..];
    }
  }

  /** Reading the entries back from the bytes of a batch gives the entries the leader built directly. */
  lemma {:induction false} ParseUndoesPrint(fs: seq<Frame>, basePos: int)
    requires forall i :: 0 <= i < |fs| ==> fs[i].payload != []
    ensures Parsed(basePos, SetBytes(fs)) == Entries(EntriesOf(fs, basePos))
  {
    var ms := SetBytes(fs);
    var pos: seq<nat> := seq(|fs| + 1, i requires 0 <= i <= |fs| => Position(fs, i));
    var hs := seq(|fs|,
        i requires 0 <= i < |fs| => Header(fs[i].offset, fs[i].timestamp, fs[i].leaderEpoch, |fs[i].payload|));
    assert Blocks(fs)[..|fs|] == Blocks(fs) && Blocks(fs)[..0] == [];
    forall i | 0 <= i < |fs| ensures FramedAt(ms, pos[i], hs[i], pos[i + 1]) {
      FrameHeader(fs, i);
    }
    ParseSuffix(ms, pos, hs, basePos, EntriesOf(fs, basePos), 0);
    assert EntriesOf(fs, basePos)[0..] == EntriesOf(fs, basePos);
    if fs != [] {
      FrameHeader(fs, 0);
    }
  }

  // ---------------------------------------------------------------- building a set

  /** A message handed to the log: its transient fields and its encoding. */
  datatype Outgoing = Outgoing(timestamp: int, leaderEpoch: nat, data: seq<Byte>)

  ghost predicate Sendable(baseOffset: int, msgs: seq<Outgoing>) {
    forall i :: 0 <= i < |msgs| ==> Fits(Frame(baseOffset + i, msgs[i].timestamp, msgs[i].leaderEpoch, msgs[i].data))
  }

  /** The frames hold the messages in order, with consecutive offsets. */
  ghost predicate Carries(fs: seq<Frame>, baseOffset: int, msgs: seq<Outgoing>) {
    |fs| == |msgs| && forall i :: 0 <= i < |msgs| ==> CarriesAt(fs, baseOffset, msgs, i)
  }

  predicate CarriesAt(fs: seq<Frame>, baseOffset: int, msgs: seq<Outgoing>, i: int)
    requires 0 <= i < |msgs| == |fs|
  {
    Holds(fs[i], baseOffset + i, msgs[i])
  }

  predicate Holds(f: Frame, offset: int, m: Outgoing) {
    f.offset == offset && f.timestamp == m.timestamp && f.leaderEpoch == m.leaderEpoch && f.payload == m.data
  }

  ghost function FramesOf(baseOffset: int, msgs: seq<Outgoing>): (fs: seq<Frame>)
    requires Sendable(baseOffset, msgs)
    ensures |fs| == |msgs|
  {
    seq(|msgs|, i requires 0 <= i < |msgs| => Frame(baseOffset + i, msgs[i].timestamp, msgs[i].leaderEpoch,
        msgs[i].data))
  }

  ghost predicate Recorded(entries: seq<Entry>, fs: seq<Frame>, basePos: int) {
    |entries| <= |fs| && forall k :: 0 <= k < |entries| ==> entries[k] == EntryOf(fs[k], basePos + Position(fs, k))
  }

  lemma {:induction false} GrowsBy(fs: seq<Frame>, i: nat)
    requires i < |fs|
    ensures SetBytes(fs[..i + 1]) == SetBytes(fs[..i]) + FrameBytes(fs[i])
    ensures Position(fs, i) == |SetBytes(fs[..i])|
  {
    assert Blocks(fs[..i + 1])[..i] == Blocks(fs[..i]) == Blocks(fs)[..i];
  }

  /** The entry names the message's offset and time, and delimits bytes that end in its data. */
  ghost predicate Delimits(ms: seq<Byte>, e: Entry, basePos: int, offset: int, m: Outgoing) {
    var p := e.position - basePos;
    && e.offset == offset && e.timestamp == m.timestamp && e.size == HEADER_LEN + |m.data|
    && 0 <= p && p + e.size <= |ms| && ms[p + HEADER_LEN..p + e.size] == m.data
  }

  lemma {:induction false} EntryHolds(fs: seq<Frame>, basePos: int, k: nat, offset: int, m: Outgoing)
    requires k < |fs| && Holds(fs[k], offset, m)
    ensures Delimits(SetBytes(fs), EntriesOf(fs, basePos)[k], basePos, offset, m)
  {
    FlatAround(Blocks(fs), k);
    var a, b := Flat(Blocks(fs)[..k]), Flat(Blocks(fs)[k + 1..]);
    assert (a + FrameBytes(fs[k]) + b)[|a| + HEADER_LEN..|a| + |FrameBytes(fs[k])|] == fs[k].payload;
  }

  /** Each entry delimits its message. */
  ghost predicate AllDelimited(ms: seq<Byte>, entries: seq<Entry>, basePos: int, baseOffset: int, msgs: seq<Outgoing>) {
    |entries| == |msgs| && forall i :: 0 <= i < |msgs| ==> DelimitedAt(ms, entries, basePos, baseOffset, msgs, i)
  }

  ghost predicate DelimitedAt(ms: seq<Byte>, entries: seq<Entry>, basePos: int, baseOffset: int, msgs: seq<Outgoing>,
      i: int)
    requires 0 <= i < |msgs| == |entries|
  {
    entries[i].leaderEpoch == msgs[i].leaderEpoch && Delimits(ms, entries[i], basePos, baseOffset + i, msgs[i])
  }

  lemma {:induction false} AllHold(fs: seq<Frame>, basePos: int, baseOffset: int, msgs: seq<Outgoing>)
    requires Carries(fs, baseOffset, msgs)
    ensures AllDelimited(SetBytes(fs), EntriesOf(fs, basePos), basePos, baseOffset, msgs)
  {
    forall i | 0 <= i < |msgs| ensures DelimitedAt(SetBytes(fs), EntriesOf(fs, basePos), basePos, baseOffset, msgs, i) {
      assert CarriesAt(fs, baseOffset, msgs, i);
      EntryHolds(fs, basePos, i, baseOffset + i, msgs[i]);
    }
  }

  lemma {:induction false} FramesCarry(baseOffset: int, msgs: seq<Outgoing>)
    requires Sendable(baseOffset, msgs)
    ensures Carries(FramesOf(baseOffset, msgs), baseOffset, msgs)
  {
  }

  /** The writes of one message, field by field. */
  method WriteFrame(buf: seq<Byte>, f: Frame) returns (out: seq<Byte>)
    ensures out == buf + FrameBytes(f)
  {
    out := buf + PutInt64(f.offset);
    out := out + PutInt64(f.timestamp);
    out := out + BE(f.leaderEpoch, 8);
    out := out + BE(|f.payload|, 4);
    out := out + f.payload;
  }

  /** What has been written after `i` messages. */
  ghost predicate Building(ms: seq<Byte>, entries: seq<Entry>, n: int, fs: seq<Frame>, i: nat, basePos: int) {
    && i <= |fs| && ms == SetBytes(fs[..i]) && |entries| == i && Int32(n)
    && (|ms| < I32 ==> n == |ms| && Recorded(entries, fs, basePos))
  }

  lemma {:induction false} BuildingNext(ms: seq<Byte>, entries: seq<Entry>, n: int, fs: seq<Frame>, i: nat,
        basePos: int)
    requires Building(ms, entries, n, fs, i, basePos) && i < |fs|
    ensures Building(ms + FrameBytes(fs[i]), entries + [EntryOf(fs[i], basePos + n)],
                     Add32(n, HEADER_LEN + |fs[i].payload|), fs, i + 1, basePos)
  {
    GrowsBy(fs, i);
  }

  /** The relative position is a 32-bit integer, so the entries are right as long as the set is shorter than 2^31. */
  method WriteSet(baseOffset: int, basePos: int, msgs: seq<Outgoing>) returns (ms: seq<Byte>, entries: seq<Entry>)
    requires Sendable(baseOffset, msgs)
    ensures ms == SetBytes(FramesOf(baseOffset, msgs))
    ensures |entries| == |msgs|
    ensures |ms| < I32 ==> entries == EntriesOf(FramesOf(baseOffset, msgs), basePos)
  {
    ghost var fs := FramesOf(baseOffset, msgs);
    ms, entries := [], [];
    var n := 0;
    for i := 0 to |msgs|
      invariant Building(ms, entries, n, fs, i, basePos)
    {
      var frame := Frame(baseOffset + i, msgs[i].timestamp, msgs[i].leaderEpoch, msgs[i].data);
      assert fs[i] == frame;
      BuildingNext(ms, entries, n, fs, i, basePos);
      entries := entries + [EntryOf(frame, basePos + n)];
      ms := WriteFrame(ms, frame);
      n := Add32(n, HEADER_LEN + |frame.payload|);
    }
    assert fs[..|msgs|] == fs;
  }

  method NewMessageSet(baseOffset: int, basePos: int, msgs: seq<Outgoing>) returns (ms: seq<Byte>, entries: seq<Entry>)
    requires Sendable(baseOffset, msgs)
    ensures ms == SetBytes(FramesOf(baseOffset, msgs))
    ensures |entries| == |msgs|
    ensures |ms| < I32 ==> entries == EntriesOf(FramesOf(baseOffset, msgs), basePos)
    ensures |ms| < I32 ==> AllDelimited(ms, entries, basePos, baseOffset, msgs)
  {
    ms, entries := WriteSet(baseOffset, basePos, msgs);
    FramesCarry(baseOffset, msgs);
    AllHold(FramesOf(baseOffset, msgs), basePos, baseOffset, msgs);
  }
}

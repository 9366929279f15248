/** The commit log: segment objects that are written, rolled and truncated in place. */
module CommitLog {
  import opened Integers
  import opened Search
  import opened Bytes
  import opened Sequences
  import opened MessageSet
  import opened Segments
  import opened Index
  import E = EpochCache

  function Indexed(fs: seq<Frame>): (es: seq<Entry>)
    ensures |es| == |fs|
    ensures forall i :: 0 <= i < |fs| ==> es[i] == Kept(EntriesOf(fs, 0)[i])
  {
    seq(|fs|, i requires 0 <= i < |fs| => Kept(EntriesOf(fs, 0)[i]))
  }

  /** Entries as they come back from the index, or as they go in. */
  ghost predicate Describe(es: seq<Entry>, fs: seq<Frame>, base: int) {
    |es| == |fs| && forall i :: 0 <= i < |fs| ==> Kept(es[i]) == Kept(EntriesOf(fs, base)[i])
  }

  lemma {:induction false} IndexedAppend(fs: seq<Frame>, gs: seq<Frame>, es: seq<Entry>)
    requires Describe(es, gs, |SetBytes(fs)|)
    ensures Indexed(fs + gs) == Indexed(fs) + AllKept(es)
  {
    EntriesAppend(fs, gs);
  }

  function AllKept(es: seq<Entry>): (r: seq<Entry>)
    ensures |r| == |es| && forall i :: 0 <= i < |es| ==> r[i] == Kept(es[i])
  {
    seq(|es|, i requires 0 <= i < |es| => Kept(es[i]))
  }

  lemma {:induction false} FirstAndLast(es: seq<Entry>, fs: seq<Frame>, base: int)
    requires Describe(es, fs, base) && fs != []
    ensures es[0].offset == fs[0].offset && es[0].timestamp == fs[0].timestamp
    ensures es[|es| - 1].offset == fs[|fs| - 1].offset
  {
  }

  /** The log file and the index both describe the messages. */
  ghost predicate Consistent(base: int, log: seq<Byte>, index: seq<Entry>, position: nat, lastOffset: int,
        frames: seq<Frame>) {
    && 0 <= base && position == |log|
    && (frames == [] ==> position == 0 && lastOffset == -1)
    && (frames != [] ==> lastOffset == frames[|frames| - 1].offset && 0 <= lastOffset)
    && forall part :: Described(part, base, log, index, frames)
  }

  datatype Part = LogFile | IndexFile | Offsets

  ghost predicate Described(part: Part, base: int, log: seq<Byte>, index: seq<Entry>, frames: seq<Frame>) {
    match part
    case LogFile => log == SetBytes(frames)
    case IndexFile => index == Indexed(frames)
    case Offsets => SegmentOk(Segment(base, frames))
  }

  lemma {:induction false} PartsAgree(base: int, log: seq<Byte>, index: seq<Entry>, position: nat, lastOffset: int,
        frames: seq<Frame>)
    requires Consistent(base, log, index, position, lastOffset, frames)
    ensures log == SetBytes(frames) && index == Indexed(frames) && SegmentOk(Segment(base, frames))
  {
    assert Described(LogFile, base, log, index, frames) && Described(IndexFile, base, log, index, frames);
    assert Described(Offsets, base, log, index, frames);
  }

  lemma {:induction false} PartsGrow(part: Part, base: int, frames: seq<Frame>, entries: seq<Entry>, fs: seq<Frame>)
    requires SegmentOk(Segment(base, frames)) && Describe(entries, fs, |SetBytes(frames)|)
    requires fs != [] && Rising(fs) && NextOffset(Segment(base, frames)) <= fs[0].offset
    ensures Described(part, base, SetBytes(frames) + SetBytes(fs), Indexed(frames) + AllKept(entries), frames + fs)
  {
    match part
    case LogFile => SetAppend(frames, fs);
    case IndexFile => IndexedAppend(frames, fs, entries);
    case Offsets => SegmentGrows(Segment(base, frames), fs);
  }

  lemma {:induction false} StaysConsistent(base: int, log: seq<Byte>, index: seq<Entry>, position: nat,
        lastOffset: int, frames: seq<Frame>,
                                          ms: seq<Byte>, entries: seq<Entry>, fs: seq<Frame>)
    requires Consistent(base, log, index, position, lastOffset, frames)
    requires fs != [] && Rising(fs) && NextOffset(Segment(base, frames)) <= fs[0].offset
    requires ms == SetBytes(fs) && Describe(entries, fs, |log|)
    ensures Consistent(base, log + ms, index + AllKept(entries), position + |ms|, entries[|entries| - 1].offset,
            frames + fs)
  {
    PartsAgree(base, log, index, position, lastOffset, frames);
    FirstAndLast(entries, fs, |log|);
    assert base <= NextOffset(Segment(base, frames)) && fs[0].offset <= fs[|fs| - 1].offset;
    forall part ensures Described(part, base, log + ms, index + AllKept(entries), frames + fs) {
      PartsGrow(part, base, frames, entries, fs);
    }
  }

  /** The first write is told by a first write time that is not zero. */
  ghost predicate KnowsFirst(frames: seq<Frame>, firstOffset: int, firstWriteTime: int) {
    if frames == [] then firstOffset == -1 && firstWriteTime == 0
    else frames[0].timestamp != 0 ==> firstOffset == frames[0].offset && firstWriteTime == frames[0].timestamp
  }

  lemma {:induction false} StaysKnown(frames: seq<Frame>, firstOffset: int, firstWriteTime: int, entries: seq<Entry>,
      fs: seq<Frame>, base: int)
    requires KnowsFirst(frames, firstOffset, firstWriteTime) && Describe(entries, fs, base) && fs != []
    ensures firstWriteTime == 0 ==> KnowsFirst(frames + fs, entries[0].offset, entries[0].timestamp)
    ensures firstWriteTime != 0 ==> KnowsFirst(frames + fs, firstOffset, firstWriteTime)
  {
    FirstAndLast(entries, fs, base);
    assert frames != [] ==> (frames + fs)[0] == frames[0];
  }

  /** A log file and its index. */
  class LogSegment {
    const base: int
    const maxBytes: nat
    var log: seq<Byte>
    var index: seq<Entry>
    var position: nat
    var firstOffset: int
    var lastOffset: int
    var firstWriteTime: int
    var lastWriteTime: int
    ghost var frames: seq<Frame>

    ghost predicate Valid()
      reads this
    {
      Consistent(base, log, index, position, lastOffset, frames)
    }

    ghost predicate FirstKnown()
      reads this
    {
      KnowsFirst(frames, firstOffset, firstWriteTime)
    }

    ghost function View(): Segment
      reads this
    {
      Segment(base, frames)
    }

    lemma {:induction false} Agrees()
      requires Valid()
      ensures log == SetBytes(frames) && index == Indexed(frames) && SegmentOk(View())
    {
      PartsAgree(base, log, index, position, lastOffset, frames);
    }

    lemma {:induction false} EndsIn(before: seq<Frame>, fs: seq<Frame>, next: int, msgs: seq<Outgoing>)
      requires Valid() && frames == before + fs && Carries(fs, next, msgs)
      ensures Stores(log, index, |before|, next, msgs)
    {
      Agrees();
      FramesStored(before, fs, next, msgs);
    }

    constructor (base: int, maxBytes: nat)
      requires 0 <= base
      ensures Valid() && FirstKnown() && View() == Segment(base, []) && this.maxBytes == maxBytes
    {
      this.base, this.maxBytes := base, maxBytes;
      log, index, position := [], [], 0;
      firstOffset, lastOffset, firstWriteTime, lastWriteTime := -1, -1, 0, 0;
      frames := [];
    }

    /** The last offset is that of the last message. */
    ghost predicate Tracks()
      reads this
    {
      if frames == [] then lastOffset == -1 else lastOffset == frames[|frames| - 1].offset != -1
    }

    method Next() returns (offset: int)
      requires Tracks()
      ensures offset == NextOffset(View())
    {
      if lastOffset == -1 {
        return base;
      }
      return lastOffset + 1;
    }

    ghost predicate SplitDue(age: nat, now: int)
      reads this
    {
      position >= maxBytes || (age != 0 && firstWriteTime != 0 && now - firstWriteTime >= age)
    }

    /** Whether the segment is full or old; `age` zero disables the latter. */
    method CheckSplit(age: nat, now: int) returns (split: bool)
      requires Valid() && FirstKnown() && 0 < maxBytes
      ensures split <==> position >= maxBytes || (age != 0 && firstWriteTime != 0 && now - firstWriteTime >= age)
      ensures split ==> frames != []
    {
      if position >= maxBytes {
        return true;
      }
      if age == 0 || firstWriteTime == 0 {
        return false;
      }
      return now - firstWriteTime >= age;
    }

    /** Appends to the log file and notes what was written first and last. */
    method Write(ms: seq<Byte>, entries: seq<Entry>)
      requires position == |log| && entries != []
      modifies this`log, this`position, this`firstOffset, this`firstWriteTime, this`lastOffset, this`lastWriteTime
      ensures log == old(log) + ms && position == |log|
      ensures var e := entries[0];
              if old(firstWriteTime) == 0 then firstOffset == e.offset && firstWriteTime == e.timestamp
              else firstOffset == old(firstOffset) && firstWriteTime == old(firstWriteTime)
      ensures var e := entries[|entries| - 1]; lastOffset == e.offset && lastWriteTime == e.timestamp
    {
      log := log + ms;
      position := position + |ms|;
      if firstWriteTime == 0 {
        firstOffset, firstWriteTime := entries[0].offset, entries[0].timestamp;
      }
      lastOffset, lastWriteTime := entries[|entries| - 1].offset, entries[|entries| - 1].timestamp;
    }

    method WriteMessageSet(ms: seq<Byte>, entries: seq<Entry>, ghost fs: seq<Frame>)
      requires Valid() && fs != [] && Rising(fs) && NextOffset(View()) <= fs[0].offset
      requires ms == SetBytes(fs) && Describe(entries, fs, |log|)
      modifies this
      ensures Valid() && frames == old(frames) + fs
      ensures old(FirstKnown()) ==> FirstKnown()
    {
      StaysConsistent(base, log, index, position, lastOffset, frames, ms, entries, fs);
      if FirstKnown() {
        StaysKnown(frames, firstOffset, firstWriteTime, entries, fs, |log|);
      }
      WriteBoth(ms, entries, fs);
    }

    /** The log file, then the index. */
    method WriteBoth(ms: seq<Byte>, entries: seq<Entry>, ghost fs: seq<Frame>)
      requires position == |log| && entries != []
      modifies this
      ensures log == old(log) + ms && position == old(position) + |ms|
      ensures index == old(index) + AllKept(entries) && frames == old(frames) + fs
      ensures lastOffset == entries[|entries| - 1].offset
      ensures firstOffset == if old(firstWriteTime) == 0 then entries[0].offset else old(firstOffset)
      ensures firstWriteTime == if old(firstWriteTime) == 0 then entries[0].timestamp else old(firstWriteTime)
    {
      Write(ms, entries);
      index := index + AllKept(entries);
      frames := frames + fs;
    }
  }

  /** What a scanner of a segment reads: the log file and the index, both describing the messages. */
  ghost predicate Scannable(log: seq<Byte>, index: seq<Entry>, fs: seq<Frame>) {
    |index| == |fs| && forall i :: 0 <= i < |fs| ==> Scanned(log, index, fs, i)
  }

  ghost predicate Scanned(log: seq<Byte>, index: seq<Entry>, fs: seq<Frame>, i: nat)
    requires i < |fs| && |index| == |fs|
  {
    LeadsTo(log, index[i], fs[i]) && Describe([index[i]], [fs[i]], |SetBytes(fs[..i])|) &&
        (i != 0 ==> index[i].offset != 0)
  }

  lemma {:induction false} CanScan(base: int, fs: seq<Frame>)
    requires SegmentOk(Segment(base, fs))
    ensures Scannable(SetBytes(fs), Indexed(fs), fs)
  {
    forall i: nat | i < |fs| ensures Scanned(SetBytes(fs), Indexed(fs), fs, i) {
      EntryReads(base, fs, i);
      EntryKept(fs, i);
    }
  }

  /** The message at index position `i`, read through its entry; nothing past the end. */
  method Scan(log: seq<Byte>, index: seq<Entry>, i: nat, ghost fs: seq<Frame>) returns (r: Option<(seq<Byte>, Entry)>)
    requires Scannable(log, index, fs)
    ensures r.Some? <==> i < |fs|
    ensures r.Some? ==> r.value == (FrameBytes(fs[i]), index[i])
  {
    if i >= |index| {
      return None;
    }
    assert Scanned(log, index, fs, i);
    if index[i].offset == 0 && i != 0 {
      return None;
    }
    var ms := ReadMessage(log, index[i], fs[i]);
    return Some((ms, index[i]));
  }

  /** The entry leads to the message in the log file. */
  ghost predicate LeadsTo(log: seq<Byte>, e: Entry, f: Frame) {
    && 0 <= e.position && e.position + HEADER_LEN + |f.payload| <= |log|
    && GetInt32(log, e.position + 24) == |f.payload|
    && log[e.position..e.position + HEADER_LEN + |f.payload|] == FrameBytes(f)
  }

  /** Reads the header, then as much as its size field says. */
  method ReadMessage(log: seq<Byte>, e: Entry, ghost f: Frame) returns (ms: seq<Byte>)
    requires LeadsTo(log, e, f)
    ensures ms == FrameBytes(f)
  {
    var size := GetInt32(log, e.position + 24);
    ms := log[e.position..e.position + HEADER_LEN + size];
  }

  lemma {:induction false} FrameWithin(fs: seq<Frame>, i: nat) returns (a: seq<Byte>, b: seq<Byte>)
    requires i < |fs|
    ensures SetBytes(fs) == a + FrameBytes(fs[i]) + b && |a| == Position(fs, i)
  {
    FlatAround(Blocks(fs), i);
    a, b := Flat(Blocks(fs)[..i]), Flat(Blocks(fs)[i + 1..]);
  }

  lemma {:induction false} EntryReads(base: int, fs: seq<Frame>, i: nat)
    requires i < |fs| && SegmentOk(Segment(base, fs))
    ensures LeadsTo(SetBytes(fs), Indexed(fs)[i], fs[i])
    ensures i != 0 ==> Indexed(fs)[i].offset != 0
  {
    var a, b := FrameWithin(fs, i);
    HeaderReadsBack(a, fs[i], b);
    EntryDelimits(fs, i);
    assert i != 0 ==> fs[0].offset < fs[i].offset;
  }

  lemma {:induction false} OffsetReads(f: Frame)
    ensures GetInt64(FrameBytes(f), 0) == f.offset
  {
    HeaderReadsBack([], f, []);
    assert [] + FrameBytes(f) + [] == FrameBytes(f);
  }

  lemma {:induction false} EntryKept(fs: seq<Frame>, i: nat)
    requires i < |fs|
    ensures Describe([Indexed(fs)[i]], [fs[i]], |SetBytes(fs[..i])|)
  {
    GrowsBy(fs, i);
    assert Blocks([fs[i]])[..0] == [];
  }

  lemma {:induction false} OneFrame(f: Frame)
    ensures SetBytes([f]) == FrameBytes(f) && Rising([f])
  {
    assert Blocks([f]) == [FrameBytes(f)];
    FlatOne(FrameBytes(f));
  }

  lemma {:induction false} NextAt(base: int, fs: seq<Frame>, i: nat)
    requires i < |fs| && SegmentOk(Segment(base, fs))
    ensures NextOffset(Segment(base, fs[..i])) <= fs[i].offset && fs[..i] + [fs[i]] == fs[..i + 1]
  {
  }

  /** One turn of the copying loop: false at the end of the segment or at the first message not to be kept. */
  method CopyMessage(log: seq<Byte>, index: seq<Entry>, i: nat, offset: int, cut: LogSegment, ghost fs: seq<Frame>)
      returns (more: bool)
    requires Scannable(log, index, fs) && SegmentOk(Segment(cut.base, fs))
    requires i <= |fs| && cut.Valid() && cut.frames == fs[..i]
    modifies cut
    ensures more <==> i < |fs| && fs[i].offset < offset
    ensures cut.Valid() && cut.frames == (if more then fs[..i + 1] else fs[..i])
    ensures old(cut.FirstKnown()) ==> cut.FirstKnown()
  {
    var next := Scan(log, index, i, fs);
    if next.None? {
      return false;
    }
    OffsetReads(fs[i]);
    if GetInt64(next.value.0, 0) >= offset {
      return false;
    }
    assert Scanned(log, index, fs, i);
    OneFrame(fs[i]);
    NextAt(cut.base, fs, i);
    cut.Agrees();
    cut.WriteMessageSet(next.value.0, [next.value.1], [fs[i]]);
    return true;
  }

  /** Copies messages until the first one not to be kept. */
  method CopyBelow(log: seq<Byte>, index: seq<Entry>, offset: int, cut: LogSegment, ghost fs: seq<Frame>)
    requires Scannable(log, index, fs) && SegmentOk(Segment(cut.base, fs))
    requires cut.Valid() && cut.FirstKnown() && cut.frames == []
    modifies cut
    ensures cut.Valid() && cut.FirstKnown() && cut.frames == Below(fs, offset)
  {
    var i, more := 0, true;
    while more
      invariant StopsAt(fs, i, offset, !more)
      invariant cut.Valid() && cut.FirstKnown() && cut.frames == fs[..i]
      decreases more, |fs| - i
    {
      more := CopyMessage(log, index, i, offset, cut, fs);
      if more {
        i := i + 1;
      }
    }
    StoppedBelow(fs, i, offset);
  }

  /** A copy of the segment up to the offset; a message keeps its position. */
  method TruncateSegment(seg: LogSegment, offset: int) returns (cut: LogSegment)
    requires seg.Valid()
    ensures fresh(cut) && cut.Valid() && cut.FirstKnown() && cut.maxBytes == seg.maxBytes
    ensures cut.View() == Segment(seg.base, Below(seg.frames, offset))
  {
    seg.Agrees();
    CanScan(seg.base, seg.frames);
    cut := new LogSegment(seg.base, seg.maxBytes);
    CopyBelow(seg.log, seg.index, offset, cut, seg.frames);
  }

  /** The first `i` messages come before the offset, and the next one, once `done`, does not. */
  ghost predicate StopsAt(fs: seq<Frame>, i: nat, offset: int, done: bool) {
    && i <= |fs| && (forall k :: 0 <= k < i ==> fs[k].offset < offset)
    && (done ==> i == |fs| || fs[i].offset >= offset)
  }

  lemma {:induction false} StoppedBelow(fs: seq<Frame>, i: nat, offset: int)
    requires StopsAt(fs, i, offset, true)
    ensures Below(fs, offset) == fs[..i]
  {
    if i == 0 {
    } else {
      StoppedBelow(fs[1..], i - 1, offset);
      assert fs[..i] == [fs[0]] + fs[1..][..i - 1];
    }
  }

  // ---------------------------------------------------------------- a segment and its index file

  lemma {:induction false} LaterPosition(fs: seq<Frame>, i: nat, j: nat)
    requires i <= j < |fs|
    ensures Position(fs, i) <= Position(fs, j)
    decreases j
  {
    if i == j {
    } else {
      LaterPosition(fs, i, j - 1);
      FrameHeader(fs, j - 1);
    }
  }

  /** The entries of a segment survive the 32-bit fields of its index file if and only if its last one does: its offset
      is less than 2^31 past the base, and its message begins below 2^31. */
  lemma {:induction false} IndexFileHolds(s: Segment)
    requires SegmentOk(s)
    ensures AllNarrow(EntriesOf(s.frames, 0), s.base) <==>
              s.frames == [] || (NextOffset(s) - 1 - s.base < I32 && Position(s.frames, |s.frames| - 1) < I32)
  {
    var es, n := EntriesOf(s.frames, 0), |s.frames| - 1;
    if s.frames == [] {
    } else {
      NarrowEntry(s, n);
      forall i | 0 <= i < |es| && Narrow(es[n], s.base) ensures Narrow(es[i], s.base) {
        NarrowEntry(s, i);
        LaterPosition(s.frames, i, n);
        assert i < n ==> s.frames[i].offset < s.frames[n].offset;
      }
    }
  }

  lemma {:induction false} NarrowEntry(s: Segment, i: nat)
    requires SegmentOk(s) && i < |s.frames|
    ensures Narrow(EntriesOf(s.frames, 0)[i], s.base) <==>
              s.frames[i].offset - s.base < I32 && Position(s.frames, i) < I32
  {
    var f: Frame := s.frames[i];
    assert Fits(f) && s.base <= f.offset;
  }

  /** The epoch cache after these messages were appended; `last` is the latest epoch the loop has met. */
  function EpochsNoted(c: E.Cache, last: nat, fs: seq<Frame>): E.Cache
    decreases |fs|
  {
    if fs == [] then c
    else if fs[0].leaderEpoch > last then
      EpochsNoted(E.Assigned(c, fs[0].leaderEpoch, fs[0].offset), fs[0].leaderEpoch, fs[1..])
    else EpochsNoted(c, last, fs[1..])
  }

  /** The loop over the entries of an append that notes new epochs. */
  method NoteEpochs(epochs: E.LeaderEpochCache, entries: seq<Entry>, ghost fs: seq<Frame>)
    requires |entries| == |fs|
    requires forall i :: 0 <= i < |fs| ==>
             entries[i].leaderEpoch == fs[i].leaderEpoch && entries[i].offset == fs[i].offset
    modifies epochs
    ensures epochs.epochOffsets == EpochsNoted(old(epochs.epochOffsets), E.LatestEpoch(old(epochs.epochOffsets)), fs)
  {
    var last := E.LatestEpoch(epochs.epochOffsets);
    ghost var noted := EpochsNoted(epochs.epochOffsets, last, fs);
    for i := 0 to |entries|
      invariant EpochsNoted(epochs.epochOffsets, last, fs[i..]) == noted
    {
      assert fs[i..][0] == fs[i] && fs[i..][1..] == fs[i + 1..];
      if entries[i].leaderEpoch > last {
        epochs.Assign(entries[i].leaderEpoch, entries[i].offset);
        last := entries[i].leaderEpoch;
      }
    }
  }

  /** The segments in order; the last one is active. */
  class Log {
    const maxBytes: nat
    const maxAge: nat
    const epochs: E.LeaderEpochCache
    var segments: seq<LogSegment>
    ghost var view: seq<Segment>

    ghost predicate Valid()
      reads this, segments
    {
      && 0 < maxBytes && segments != []
      && (forall i, j :: 0 <= i < j < |segments| ==> segments[i] != segments[j])
      && (forall s <- segments :: Sound(s))
      && |view| == |segments| && forall i :: 0 <= i < |segments| ==> view[i] == segments[i].View()
    }

    ghost predicate Sound(s: LogSegment)
      reads s
    {
      s.Valid() && s.FirstKnown() && s.maxBytes == maxBytes
    }

    constructor (maxBytes: nat, maxAge: nat)
      requires 0 < maxBytes
      ensures Valid() && view == [Segment(0, [])] && fresh(segments) && fresh(epochs) && epochs.epochOffsets == []
    {
      this.maxBytes, this.maxAge := maxBytes, maxAge;
      epochs := new E.LeaderEpochCache();
      var first := new LogSegment(0, maxBytes);
      segments := [first];
      view := [Segment(0, [])];
    }

    /** The segment written to. */
    method Active() returns (active: LogSegment)
      requires Valid()
      ensures active == segments[|segments| - 1] && Sound(active)
    {
      active := segments[|segments| - 1];
      assert active in segments;
    }

    method NewestOffset() returns (offset: int)
      requires Valid()
      ensures offset == Segments.NewestOffset(view)
    {
      var active := Active();
      var next := active.Next();
      return next - 1;
    }

    method Split()
      requires Valid()
      modifies this
      ensures Valid() && view == Rolled(old(view))
      ensures segments != [] && segments == old(segments) + [segments[|segments| - 1]] &&
              fresh(segments[|segments| - 1])
    {
      var active := Active();
      var base := active.Next();
      var rolled := new LogSegment(base, maxBytes);
      segments := segments + [rolled];
      view := Rolled(view);
    }

    /** Rolls a new segment once the active one is full or old. */
    method CheckAndPerformSplit(now: int) returns (split: bool)
      requires Valid()
      modifies this
      ensures Valid() && (segments[|segments| - 1] == old(segments)[|old(segments)| - 1] ||
              fresh(segments[|segments| - 1]))
      ensures (split <==> old(segments[|segments| - 1].SplitDue(maxAge, now))) &&
              (split ==> old(view)[|old(view)| - 1].frames != [])
      ensures view == if split then Rolled(old(view)) else old(view)
    {
      var active := Active();
      split := active.CheckSplit(maxAge, now);
      if split {
        Split();
      }
    }

    /** The write to the active segment that both appends end in. */
    method WriteActive(ms: seq<Byte>, entries: seq<Entry>, ghost fs: seq<Frame>)
      requires Valid() && Follows(view, fs)
      requires ms == SetBytes(fs) && entries == EntriesOf(fs, segments[|segments| - 1].position)
      modifies this`view, segments[|segments| - 1], epochs
      ensures Valid() && view == Appended(old(view), fs) && EpochsFollow(old(epochs.epochOffsets), fs)
    {
      WriteSet(ms, entries, fs);
      NoteEpochs(epochs, entries, fs);
    }

    method WriteSet(ms: seq<Byte>, entries: seq<Entry>, ghost fs: seq<Frame>)
      requires Valid() && Follows(view, fs)
      requires ms == SetBytes(fs) && Describe(entries, fs, segments[|segments| - 1].position)
      modifies this`view, segments[|segments| - 1]
      ensures Valid() && view == Appended(old(view), fs)
    {
      var active := Active();
      active.WriteMessageSet(ms, entries, fs);
      view := Appended(view, fs);
    }

    /** The epochs of the appended messages were noted. */
    ghost predicate EpochsFollow(before: E.Cache, fs: seq<Frame>)
      reads this, epochs
    {
      epochs.epochOffsets == EpochsNoted(before, E.LatestEpoch(before), fs)
    }

    /** Encodes the batch from the next offset on and writes it. */
    method EncodeAndWrite(msgs: seq<Outgoing>)
      requires Valid() && msgs != [] && Fitting(view, msgs)
      modifies this`view, segments[|segments| - 1], epochs
      ensures Valid() && view == Appended(old(view), NewFrames(old(view), msgs))
      ensures EpochsFollow(old(epochs.epochOffsets), NewFrames(old(view), msgs))
    {
      var ms, entries := Encode(msgs);
      NewFollow(view, msgs);
      WriteActive(ms, entries, NewFrames(view, msgs));
    }

    method Encode(msgs: seq<Outgoing>) returns (ms: seq<Byte>, entries: seq<Entry>)
      requires Valid() && Fitting(view, msgs)
      ensures ms == SetBytes(NewFrames(view, msgs))
      ensures entries == EntriesOf(NewFrames(view, msgs), segments[|segments| - 1].position)
    {
      var newest := NewestOffset();
      ms, entries := NewMessageSet(newest + 1, segments[|segments| - 1].position, msgs);
    }

    /** Parses the entries of a set received from the leader and writes it. */
    method ParseAndWrite(ms: seq<Byte>, ghost fs: seq<Frame>)
      requires Valid() && Follows(view, fs) && ms == SetBytes(fs) && forall i :: 0 <= i < |fs| ==> fs[i].payload != []
      modifies this`view, segments[|segments| - 1], epochs
      ensures Valid() && view == Appended(old(view), fs) && EpochsFollow(old(epochs.epochOffsets), fs)
    {
      var entries := ParseEntries(segments[|segments| - 1].position, ms, fs);
      WriteActive(ms, entries, fs);
    }

    /** Rolls a segment if it is time, then appends the set as it is. */
    method AppendMessageSet(ms: seq<Byte>, now: int, ghost fs: seq<Frame>) returns (split: bool)
      requires Valid() && Follows(view, fs) && ms == SetBytes(fs) && forall i :: 0 <= i < |fs| ==> fs[i].payload != []
      modifies this, segments[|segments| - 1], epochs
      ensures Valid() && (split <==> old(segments[|segments| - 1].SplitDue(maxAge, now)))
      ensures split ==> old(view)[|old(view)| - 1].frames != []
      ensures view == Appended(if split then Rolled(old(view)) else old(view), fs)
      ensures EpochsFollow(old(epochs.epochOffsets), fs)
    {
      split := CheckAndPerformSplit(now);
      ParseAndWrite(ms, fs);
    }

    method RollAndWrite(msgs: seq<Outgoing>, now: int) returns (split: bool)
      requires Valid() && msgs != [] && Fitting(view, msgs)
      modifies this, segments[|segments| - 1], epochs
      ensures Valid() && (split <==> old(segments[|segments| - 1].SplitDue(maxAge, now)))
      ensures split ==> old(view)[|old(view)| - 1].frames != []
      ensures view == Appended(if split then Rolled(old(view)) else old(view), NewFrames(old(view), msgs))
      ensures EpochsFollow(old(epochs.epochOffsets), NewFrames(old(view), msgs))
    {
      split := CheckAndPerformSplit(now);
      EncodeAndWrite(msgs);
    }

    /** Rolls a segment if it is time, then appends. */
    method Append(msgs: seq<Outgoing>, now: int) returns (split: bool)
      requires Valid() && msgs != [] && Fitting(view, msgs)
      modifies this, segments[|segments| - 1], epochs
      ensures Valid() && (split <==> old(segments[|segments| - 1].SplitDue(maxAge, now)))
      ensures split ==> old(view)[|old(view)| - 1].frames != []
      ensures view == Appended(if split then Rolled(old(view)) else old(view), NewFrames(old(view), msgs))
      ensures EpochsFollow(old(epochs.epochOffsets), NewFrames(old(view), msgs))
      ensures EndsWith(Frames(view), Frames(old(view)), Segments.NewestOffset(old(view)) + 1, msgs)
      ensures ActiveEndsWith(Segments.NewestOffset(old(view)) + 1, msgs)
    {
      split := RollAndWrite(msgs, now);
      FramesCarry(Segments.NewestOffset(old(view)) + 1, msgs);
      AppendEnds(old(view), split, NewFrames(old(view), msgs), msgs);
      ActiveStores(if split then Rolled(old(view)) else old(view), NewFrames(old(view), msgs), msgs);
    }

    /** The log file and the index of the active segment end in these messages. */
    ghost predicate ActiveEndsWith(next: int, msgs: seq<Outgoing>)
      reads this, segments
    {
      && segments != []
      && var active := segments[|segments| - 1];
         |msgs| <= |active.index| && Stores(active.log, active.index, |active.index| - |msgs|, next, msgs)
    }

    lemma {:induction false} ActiveStores(was: seq<Segment>, fs: seq<Frame>, msgs: seq<Outgoing>)
      requires Valid() && was != [] && view == Appended(was, fs) && Carries(fs, Segments.NewestOffset(was) + 1, msgs)
      ensures ActiveEndsWith(Segments.NewestOffset(was) + 1, msgs)
    {
      var active := segments[|segments| - 1];
      assert active in segments;
      active.EndsIn(was[|was| - 1].frames, fs, Segments.NewestOffset(was) + 1, msgs);
    }

    /** A server that becomes leader notes the new epoch at the newest offset. */
    method NewLeaderEpoch(epoch: nat)
      requires Valid()
      modifies epochs
      ensures Valid()
      ensures epochs.epochOffsets == E.Assigned(old(epochs.epochOffsets), epoch, Segments.NewestOffset(view))
    {
      var newest := NewestOffset();
      epochs.Assign(epoch, newest);
    }

    /** The start of the first later epoch, or the newest offset. */
    method LastOffsetForLeaderEpoch(epoch: nat) returns (offset: int)
      requires Valid()
      ensures var end := E.CachedEnd(epochs.epochOffsets, epoch);
              offset == if end == -1 then Segments.NewestOffset(view) else end
    {
      offset := epochs.LastOffsetForLeaderEpoch(epoch);
      if offset == -1 {
        offset := NewestOffset();
      }
    }

    ghost predicate Tracked()
      reads this, segments
    {
      |view| == |segments| && forall i :: 0 <= i < |segments| ==> segments[i].Tracks() && view[i] == segments[i].View()
    }

    /** The binary search for the first segment whose next offset is past the given one. */
    method FindSegment(offset: int) returns (k: nat)
      requires Tracked() && NextsRise(view)
      ensures FirstReaching(view, offset, k)
    {
      var j: nat;
      k, j := 0, |segments|;
      while k < j
        invariant k <= j <= |view|
        invariant forall i :: 0 <= i < k ==> !Reaches(view[i], offset)
        invariant forall i :: j <= i < |view| ==> Reaches(view[i], offset)
      {
        var h := (k + j) / 2;
        var next := segments[h].Next();
        if next <= offset {
          k := h + 1;
        } else {
          j := h;
        }
      }
    }

    lemma {:induction false} ValidTracks()
      requires Valid()
      ensures Tracked()
    {
      forall i | 0 <= i < |segments| ensures segments[i].Tracks() {
        assert segments[i] in segments;
      }
    }

    /** Removes all messages from the given offset on: later segments go, the one it falls into is rewritten, and the
        epochs that start there are forgotten. */
    method Truncate(offset: int)
      requires Valid() && LogOk(view)
      modifies this, epochs
      ensures Valid() && view == Truncated(old(view), offset)
      ensures epochs.epochOffsets ==
              if SegmentIndex(old(view), offset) < |old(view)| then E.ClearedLatest(old(epochs.epochOffsets), offset)
              else old(epochs.epochOffsets)
    {
      var found := TruncateSegments(offset);
      if found {
        epochs.ClearLatest(offset);
      }
    }

    method TruncateSegments(offset: int) returns (found: bool)
      requires Valid() && LogOk(view)
      modifies this
      ensures Valid() && view == Truncated(old(view), offset) &&
              found == (SegmentIndex(old(view), offset) < |old(view)|)
    {
      ValidTracks();
      IndexFound(view, offset);
      var k := FindSegment(offset);
      IndexUnique(view, offset, k);
      found := k < |segments|;
      if found {
        Cut(k, offset);
      }
    }

    /** Drops what follows segment `k`, and cuts that segment or drops it too. */
    method Cut(k: nat, offset: int)
      requires Valid() && k < |segments|
      modifies this
      ensures Valid()
      ensures view == if old(view)[k].base == offset && k != 0 then old(view)[..k]
                      else old(view)[..k] + [Segment(old(view)[k].base, Below(old(view)[k].frames, offset))]
    {
      if segments[k].base == offset && k != 0 {
        KeepFirst(k);
      } else {
        Rewrite(k, offset);
      }
    }

    method Rewrite(k: nat, offset: int)
      requires Valid() && k < |segments|
      modifies this
      ensures Valid() && view == old(view)[..k] + [Segment(old(view)[k].base, Below(old(view)[k].frames, offset))]
    {
      var seg := segments[k];
      assert seg in segments;
      var cut := TruncateSegment(seg, offset);
      Replace(k, cut);
    }

    method KeepFirst(k: nat)
      requires Valid() && 0 < k <= |segments|
      modifies this
      ensures Valid() && view == old(view)[..k] && segments == old(segments)[..k]
    {
      segments, view := segments[..k], view[..k];
    }

    method Replace(k: nat, cut: LogSegment)
      requires Valid() && k < |segments| && cut !in segments && Sound(cut)
      modifies this
      ensures Valid() && view == old(view)[..k] + [cut.View()]
    {
      segments, view := segments[..k] + [cut], view[..k] + [cut.View()];
    }
  }

  ghost predicate NextsRise(log: seq<Segment>) {
    forall i, j :: 0 <= i <= j < |log| ==> NextOffset(log[i]) <= NextOffset(log[j])
  }

  ghost predicate FirstReaching(log: seq<Segment>, offset: int, k: nat) {
    k <= |log| && forall i :: 0 <= i < |log| ==> (Reaches(log[i], offset) <==> k <= i)
  }

  lemma {:induction false} IndexFound(log: seq<Segment>, offset: int)
    requires LogOk(log)
    ensures NextsRise(log) && FirstReaching(log, offset, SegmentIndex(log, offset))
  {
  }

  lemma {:induction false} IndexUnique(log: seq<Segment>, offset: int, k: nat)
    requires FirstReaching(log, offset, k) && FirstReaching(log, offset, SegmentIndex(log, offset))
    ensures k == SegmentIndex(log, offset)
  {
  }

  method ParseEntries(base: int, ms: seq<Byte>, ghost fs: seq<Frame>) returns (entries: seq<Entry>)
    requires ms == SetBytes(fs) && forall i :: 0 <= i < |fs| ==> fs[i].payload != []
    ensures entries == EntriesOf(fs, base)
  {
    ParseUndoesPrint(fs, base);
    var parsed := EntriesForMessageSet(base, ms);
    return parsed.entries;
  }

  lemma {:induction false} NewFollow(log: seq<Segment>, msgs: seq<Outgoing>)
    requires log != [] && Fitting(log, msgs) && msgs != []
    ensures Follows(log, NewFrames(log, msgs))
  {
  }

  /** The messages follow what was there, with the next offsets. */
  ghost predicate EndsWith(now: seq<Frame>, was: seq<Frame>, next: int, msgs: seq<Outgoing>) {
    |was| <= |now| && now[..|was|] == was && Carries(now[|was|..], next, msgs)
  }

  /** The entries of the index from number `k` on lead to the messages in the log file. */
  ghost predicate Stores(log: seq<Byte>, index: seq<Entry>, k: nat, next: int, msgs: seq<Outgoing>) {
    k + |msgs| == |index| && forall i :: 0 <= i < |msgs| ==> StoredAt(log, index, k, next, msgs, i)
  }

  ghost predicate StoredAt(log: seq<Byte>, index: seq<Entry>, k: nat, next: int, msgs: seq<Outgoing>, i: int)
    requires 0 <= i < |msgs| && k + |msgs| == |index|
  {
    Delimits(log, index[k + i], 0, next + i, msgs[i])
  }

  lemma {:induction false} FramesStored(before: seq<Frame>, fs: seq<Frame>, next: int, msgs: seq<Outgoing>)
    requires Carries(fs, next, msgs)
    ensures Stores(SetBytes(before + fs), Indexed(before + fs), |before|, next, msgs)
  {
    var all, log, index := before + fs, SetBytes(before + fs), Indexed(before + fs);
    forall i | 0 <= i < |msgs| ensures StoredAt(log, index, |before|, next, msgs, i) {
      assert all[|before| + i] == fs[i] && CarriesAt(fs, next, msgs, i);
      FrameStored(all, |before| + i, next + i, msgs[i]);
    }
  }

  lemma {:induction false} FrameStored(fs: seq<Frame>, k: nat, offset: int, m: Outgoing)
    requires k < |fs| && Holds(fs[k], offset, m)
    ensures Delimits(SetBytes(fs), Indexed(fs)[k], 0, offset, m)
  {
    EntryHolds(fs, 0, k, offset, m);
  }

  lemma {:induction false} AppendEnds(was: seq<Segment>, split: bool, fs: seq<Frame>, msgs: seq<Outgoing>)
    requires was != [] && Carries(fs, NewestOffset(was) + 1, msgs)
    ensures var rolled := if split then Rolled(was) else was;
            && EndsWith(Frames(Appended(rolled, fs)), Frames(was), NewestOffset(was) + 1, msgs)
            && NewestOffset(rolled) == NewestOffset(was)
  {
    RolledFrames(was);
    AppendedFrames(if split then Rolled(was) else was, fs);
  }

  /** The batch and its offsets fit the fields they are written to. */
  ghost predicate Fitting(log: seq<Segment>, msgs: seq<Outgoing>)
    requires log != []
  {
    var next := NewestOffset(log) + 1;
    Sendable(next, msgs) && |SetBytes(FramesOf(next, msgs))| < I32
  }

  ghost function NewFrames(log: seq<Segment>, msgs: seq<Outgoing>): (fs: seq<Frame>)
    requires log != [] && Fitting(log, msgs)
    ensures |fs| == |msgs| && Consecutive(fs, NewestOffset(log) + 1)
  {
    FramesOf(NewestOffset(log) + 1, msgs)
  }
}

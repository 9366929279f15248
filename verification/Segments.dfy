/** The segmented log as values: what rolling, appending and truncating do to the flat sequence of messages. */
module Segments {
  import Search
  import opened Sequences
  import opened MessageSet

  /** A segment: the offset it was created for and the messages in it. */
  datatype Segment = Segment(base: int, frames: seq<Frame>)

  function NextOffset(s: Segment): int {
    if s.frames == [] then s.base else s.frames[|s.frames| - 1].offset + 1
  }

  ghost predicate Rising(fs: seq<Frame>) {
    forall i, j :: 0 <= i < j < |fs| ==> fs[i].offset < fs[j].offset
  }

  ghost predicate SegmentOk(s: Segment) {
    Rising(s.frames) && 0 <= s.base && forall i :: 0 <= i < |s.frames| ==> s.base <= s.frames[i].offset
  }

  /** Compaction may have thinned segments out, so offsets rise but need not be consecutive. */
  ghost predicate LogOk(log: seq<Segment>) {
    && log != []
    && (forall i :: 0 <= i < |log| ==> SegmentOk(log[i]))
    && forall i, j :: 0 <= i < j < |log| ==> log[i].base < log[j].base && NextOffset(log[i]) <= log[j].base
  }

  function Contents(log: seq<Segment>): (blocks: seq<seq<Frame>>)
    ensures |blocks| == |log| && forall i :: 0 <= i < |log| ==> blocks[i] == log[i].frames
  {
    seq(|log|, i requires 0 <= i < |log| => log[i].frames)
  }

  /** The log as one sequence of messages. */
  function Frames(log: seq<Segment>): seq<Frame> {
    Flat(Contents(log))
  }

  // ---------------------------------------------------------------- the operations

  /** Writing to the active segment. */
  function Appended(log: seq<Segment>, fs: seq<Frame>): seq<Segment>
    requires log != []
  {
    var n := |log| - 1;
    log[n := Segment(log[n].base, log[n].frames + fs)]
  }

  /** Rolling a new segment. */
  function Rolled(log: seq<Segment>): seq<Segment>
    requires log != []
  {
    log + [Segment(NextOffset(log[|log| - 1]), [])]
  }

  predicate Reaches(s: Segment, offset: int) {
    NextOffset(s) > offset
  }

  /** The messages scanned before the first one at or past `offset`. */
  function Below(fs: seq<Frame>, offset: int): (r: seq<Frame>)
    ensures r <= fs
  {
    if fs == [] || fs[0].offset >= offset then [] else [fs[0]] + Below(fs[1..], offset)
  }

  function Reaching(log: seq<Segment>, offset: int): nat -> bool {
    (i: nat) => i < |log| && Reaches(log[i], offset)
  }

  /** The first segment whose next offset is past the given one. */
  function SegmentIndex(log: seq<Segment>, offset: int): (k: nat)
    ensures k <= |log|
  {
    Search.Search(|log|, Reaching(log, offset))
  }

  function Truncated(log: seq<Segment>, offset: int): seq<Segment> {
    var k := SegmentIndex(log, offset);
    if k == |log| then log
    else if log[k].base == offset && k != 0 then log[..k]
    else log[..k] + [Segment(log[k].base, Below(log[k].frames, offset))]
  }

  // ---------------------------------------------------------------- filtering a rising sequence

  lemma {:induction false} BelowAll(fs: seq<Frame>, offset: int)
    requires forall i :: 0 <= i < |fs| ==> fs[i].offset < offset
    ensures Below(fs, offset) == fs
  {
    if fs == [] {
    } else {
      BelowAll(fs[1..], offset);
    }
  }

  lemma {:induction false} BelowSplit(a: seq<Frame>, b: seq<Frame>, offset: int)
    ensures Below(a + b, offset) == if Below(a, offset) == a then a + Below(b, offset) else Below(a, offset)
  {
    if a == [] {
      assert a + b == b;
    } else {
      assert (a + b)[1..] == a[1..] + b && a == [a[0]] + a[1..];
      BelowSplit(a[1..], b, offset);
    }
  }

  lemma {:induction false} BelowNone(fs: seq<Frame>, offset: int)
    requires forall i :: 0 <= i < |fs| ==> fs[i].offset >= offset
    ensures Below(fs, offset) == []
  {
  }

  /** On a rising sequence the scan keeps exactly the messages before the offset. */
  lemma {:induction false} BelowExact(fs: seq<Frame>, offset: int)
    requires Rising(fs)
    ensures forall i :: 0 <= i < |fs| ==> (i < |Below(fs, offset)| <==> fs[i].offset < offset)
  {
    if fs != [] && fs[0].offset < offset {
      BelowExact(fs[1..], offset);
      forall i | 0 <= i < |fs| ensures i < |Below(fs, offset)| <==> fs[i].offset < offset {
        assert i > 0 ==> fs[i] == fs[1..][i - 1];
      }
    }
  }

  // ---------------------------------------------------------------- the flat log

  lemma {:induction false} FramesSplit(log: seq<Segment>, k: nat)
    requires k < |log|
    ensures Frames(log) == Frames(log[..k]) + (log[k].frames + Frames(log[k + 1..]))
  {
    FlatAround(Contents(log), k);
    assert Contents(log)[..k] == Contents(log[..k]) && Contents(log)[k + 1..] == Contents(log[k + 1..]);
  }

  lemma {:induction false} FramesSnoc(log: seq<Segment>, s: Segment)
    ensures Frames(log + [s]) == Frames(log) + s.frames
  {
    assert Contents(log + [s])[..|log|] == Contents(log);
  }

  lemma {:induction false} AppendedFrames(log: seq<Segment>, fs: seq<Frame>)
    requires log != []
    ensures Frames(Appended(log, fs)) == Frames(log) + fs
  {
    var n := |log| - 1;
    assert log == log[..n] + [log[n]];
    assert Appended(log, fs) == log[..n] + [Segment(log[n].base, log[n].frames + fs)];
    FramesSnoc(log[..n], log[n]);
    FramesSnoc(log[..n], Segment(log[n].base, log[n].frames + fs));
  }

  lemma {:induction false} RolledFrames(log: seq<Segment>)
    requires log != []
    ensures Frames(Rolled(log)) == Frames(log)
  {
    FramesSnoc(log, Segment(NextOffset(log[|log| - 1]), []));
  }

  lemma {:induction false} SegmentBelow(s: Segment, offset: int)
    requires SegmentOk(s) && NextOffset(s) <= offset
    ensures Below(s.frames, offset) == s.frames
  {
    BelowAll(s.frames, offset);
  }

  lemma {:induction false} PrefixBelow(log: seq<Segment>, offset: int)
    requires forall i :: 0 <= i < |log| ==> SegmentOk(log[i]) && NextOffset(log[i]) <= offset
    ensures Below(Frames(log), offset) == Frames(log)
  {
    if log == [] {
    } else {
      var n := |log| - 1;
      assert log == log[..n] + [log[n]];
      PrefixBelow(log[..n], offset);
      FramesSnoc(log[..n], log[n]);
      SegmentBelow(log[n], offset);
      BelowSplit(Frames(log[..n]), log[n].frames, offset);
    }
  }

  lemma {:induction false} SuffixAbove(log: seq<Segment>, offset: int)
    requires forall i :: 0 <= i < |log| ==> SegmentOk(log[i]) && offset <= log[i].base
    ensures Below(Frames(log), offset) == []
  {
    if log == [] {
    } else {
      var n := |log| - 1;
      assert log == log[..n] + [log[n]];
      SuffixAbove(log[..n], offset);
      FramesSnoc(log[..n], log[n]);
      BelowNone(log[n].frames, offset);
      BelowSplit(Frames(log[..n]), log[n].frames, offset);
    }
  }

  lemma {:induction false} NextRises(log: seq<Segment>, i: nat, j: nat)
    requires LogOk(log) && i <= j < |log|
    ensures log[i].base <= NextOffset(log[i]) <= NextOffset(log[j])
    ensures i < j ==> NextOffset(log[i]) <= log[j].base <= NextOffset(log[j])
  {
  }

  /** The binary search finds the first segment reaching past the offset. */
  lemma {:induction false} SegmentIndexIs(log: seq<Segment>, offset: int)
    requires LogOk(log)
    ensures forall i :: 0 <= i < |log| ==> (Reaches(log[i], offset) <==> SegmentIndex(log, offset) <= i)
  {
  }

  lemma {:induction false} EarlierBelow(log: seq<Segment>, k: nat, offset: int)
    requires LogOk(log) && k == SegmentIndex(log, offset)
    ensures Below(Frames(log[..k]), offset) == Frames(log[..k])
  {
    SegmentIndexIs(log, offset);
    var early := log[..k];
    forall i | 0 <= i < |early| ensures SegmentOk(early[i]) && NextOffset(early[i]) <= offset {
      assert !Reaches(log[i], offset);
    }
    PrefixBelow(early, offset);
  }

  lemma {:induction false} LaterAbove(log: seq<Segment>, k: nat, offset: int)
    requires LogOk(log) && k < |log| && Reaches(log[k], offset)
    ensures Below(Frames(log[k + 1..]), offset) == []
  {
    var late := log[k + 1..];
    forall i | 0 <= i < |late| ensures SegmentOk(late[i]) && offset <= late[i].base {
      NextRises(log, k, k + 1 + i);
    }
    SuffixAbove(late, offset);
  }

  lemma {:induction false} CutBelow(a: seq<Frame>, b: seq<Frame>, c: seq<Frame>, offset: int)
    requires Below(a, offset) == a && Below(c, offset) == []
    ensures Below(a + (b + c), offset) == a + Below(b, offset)
  {
    BelowSplit(a, b + c, offset);
    BelowSplit(b, c, offset);
  }

  lemma {:induction false} KeptFrames(log: seq<Segment>, k: nat, offset: int)
    requires LogOk(log) && k < |log| && k == SegmentIndex(log, offset)
    ensures Frames(Truncated(log, offset)) == Frames(log[..k]) + Below(log[k].frames, offset)
  {
    if log[k].base == offset && k != 0 {
      assert SegmentOk(log[k]);
      BelowNone(log[k].frames, offset);
    } else {
      FramesSnoc(log[..k], Segment(log[k].base, Below(log[k].frames, offset)));
    }
  }

  /** Truncation keeps exactly the messages before the offset, in order. */
  lemma {:induction false} TruncatedFrames(log: seq<Segment>, offset: int)
    requires LogOk(log)
    ensures Frames(Truncated(log, offset)) == Below(Frames(log), offset)
  {
    var k := SegmentIndex(log, offset);
    EarlierBelow(log, k, offset);
    if k == |log| {
      assert log[..k] == log;
    } else {
      LaterAbove(log, k, offset);
      FramesSplit(log, k);
      CutBelow(Frames(log[..k]), log[k].frames, Frames(log[k + 1..]), offset);
      KeptFrames(log, k, offset);
    }
  }

  // ---------------------------------------------------------------- what every operation keeps

  /** Messages that may follow the log: rising, from the next offset on. */
  ghost predicate Follows(log: seq<Segment>, fs: seq<Frame>)
    requires log != []
  {
    Rising(fs) && fs != [] && NextOffset(log[|log| - 1]) <= fs[0].offset
  }

  lemma {:induction false} SegmentGrows(s: Segment, fs: seq<Frame>)
    requires SegmentOk(s) && Rising(fs) && fs != [] && NextOffset(s) <= fs[0].offset
    ensures SegmentOk(Segment(s.base, s.frames + fs))
  {
  }

  lemma {:induction false} AppendedOk(log: seq<Segment>, fs: seq<Frame>)
    requires LogOk(log) && Follows(log, fs)
    ensures LogOk(Appended(log, fs))
  {
  }

  lemma {:induction false} RolledOk(log: seq<Segment>)
    requires LogOk(log) && log[|log| - 1].frames != []
    ensures LogOk(Rolled(log))
  {
  }

  lemma {:induction false} SegmentShrinks(s: Segment, offset: int)
    requires SegmentOk(s)
    ensures SegmentOk(Segment(s.base, Below(s.frames, offset)))
  {
  }

  lemma {:induction false} PrefixOk(log: seq<Segment>, k: nat)
    requires LogOk(log) && 0 < k <= |log|
    ensures LogOk(log[..k])
  {
  }

  lemma {:induction false} ReplacedOk(log: seq<Segment>, k: nat, t: Segment)
    requires LogOk(log) && k < |log| && SegmentOk(t) && t.base == log[k].base
    ensures LogOk(log[..k] + [t])
  {
  }

  lemma {:induction false} TruncatedOk(log: seq<Segment>, offset: int)
    requires LogOk(log)
    ensures LogOk(Truncated(log, offset))
  {
    var k := SegmentIndex(log, offset);
    if k < |log| {
      SegmentShrinks(log[k], offset);
      ReplacedOk(log, k, Segment(log[k].base, Below(log[k].frames, offset)));
      if k > 0 {
        PrefixOk(log, k);
      }
    }
  }

  /** The flat log rises, so its prefix below an offset is the set of its messages below it. */
  lemma {:induction false} FramesRise(log: seq<Segment>)
    requires LogOk(log)
    ensures Rising(Frames(log)) && forall i :: 0 <= i < |Frames(log)| ==>
            0 <= Frames(log)[i].offset < NextOffset(log[|log| - 1])
    decreases |log|
  {
    var n := |log| - 1;
    assert SegmentOk(log[n]);
    assert log == log[..n] + [log[n]];
    FramesSnoc(log[..n], log[n]);
    if n > 0 {
      FramesRise(log[..n]);
      NextRises(log, n - 1, n);
    } else {
      assert Contents(log[..n]) == [];
    }
  }

  // ---------------------------------------------------------------- logs without gaps

  ghost predicate Consecutive(fs: seq<Frame>, base: int) {
    forall i :: 0 <= i < |fs| ==> fs[i].offset == base + i
  }

  /** No offset is missing, as long as nothing was compacted. */
  ghost predicate Dense(log: seq<Segment>) {
    && LogOk(log) && (forall i :: 0 <= i < |log| ==> Consecutive(log[i].frames, log[i].base))
    && forall i :: 0 < i < |log| ==> log[i].base == NextOffset(log[i - 1])
  }

  function NewestOffset(log: seq<Segment>): int
    requires log != []
  {
    NextOffset(log[|log| - 1]) - 1
  }

  lemma {:induction false} ShrinksTo(s: Segment, offset: int)
    requires SegmentOk(s) && Consecutive(s.frames, s.base) && s.base <= offset <= NextOffset(s)
    ensures var t := Segment(s.base, Below(s.frames, offset)); NextOffset(t) == offset && Consecutive(t.frames, t.base)
  {
    BelowExact(s.frames, offset);
    var n := |Below(s.frames, offset)|;
    assert n < |s.frames| ==> s.frames[n].offset >= offset;
    assert n > 0 ==> s.frames[n - 1].offset < offset;
  }

  lemma {:induction false} DensePrefix(log: seq<Segment>, k: nat)
    requires Dense(log) && 0 < k <= |log|
    ensures Dense(log[..k])
  {
  }

  lemma {:induction false} DenseReplaced(log: seq<Segment>, k: nat, t: Segment)
    requires Dense(log) && k < |log| && SegmentOk(t) && t.base == log[k].base && Consecutive(t.frames, t.base)
    ensures Dense(log[..k] + [t])
  {
  }

  lemma {:induction false} TargetSegment(log: seq<Segment>, offset: int)
    requires Dense(log) && log[0].base <= offset <= NewestOffset(log) + 1
    ensures var k := SegmentIndex(log, offset);
            if k == |log| then offset == NewestOffset(log) + 1
            else log[k].base <= offset < NextOffset(log[k]) && (0 < k ==> log[k].base == NextOffset(log[k - 1]))
  {
  }

  /** Truncation to an offset within the log leaves it ending just before that offset. */
  lemma {:induction false} TruncatedNewest(log: seq<Segment>, offset: int)
    requires Dense(log) && log[0].base <= offset <= NewestOffset(log) + 1
    ensures Truncated(log, offset) != [] && NewestOffset(Truncated(log, offset)) == offset - 1
    ensures Dense(Truncated(log, offset))
  {
    TargetSegment(log, offset);
    var k := SegmentIndex(log, offset);
    if k < |log| {
      if log[k].base == offset && k != 0 {
        DensePrefix(log, k);
      } else {
        SegmentShrinks(log[k], offset);
        ShrinksTo(log[k], offset);
        DenseReplaced(log, k, Segment(log[k].base, Below(log[k].frames, offset)));
      }
    }
  }

  // ---------------------------------------------------------------- whole runs

  /** Appending, rolling a segment and truncating. */
  datatype Op = Append(frames: seq<Frame>) | Roll | Truncate(offset: int)

  /** A roll happens only once the active segment was written to. */
  ghost predicate Enabled(log: seq<Segment>, op: Op) {
    && log != []
    && (op.Append? ==> Follows(log, op.frames))
    && (op.Roll? ==> log[|log| - 1].frames != [])
  }

  function Step(log: seq<Segment>, op: Op): seq<Segment>
    requires log != []
  {
    match op
    case Append(fs) => Appended(log, fs)
    case Roll => Rolled(log)
    case Truncate(offset) => Truncated(log, offset)
  }

  /** The same operations on a plain sequence of messages. */
  function FlatStep(flat: seq<Frame>, op: Op): seq<Frame> {
    match op
    case Append(fs) => flat + fs
    case Roll => flat
    case Truncate(offset) => Below(flat, offset)
  }

  function FlatRun(ops: seq<Op>): seq<Frame> {
    if ops == [] then [] else FlatStep(FlatRun(ops[..|ops| - 1]), ops[|ops| - 1])
  }

  ghost predicate StepAt(run: seq<seq<Segment>>, ops: seq<Op>, i: nat)
    requires i < |ops| && |run| == |ops| + 1
  {
    Enabled(run[i], ops[i]) && run[i + 1] == Step(run[i], ops[i])
  }

  ghost predicate IsRun(run: seq<seq<Segment>>, ops: seq<Op>) {
    && |run| == |ops| + 1 && run[0] == [Segment(0, [])]
    && forall i :: 0 <= i < |ops| ==> StepAt(run, ops, i)
  }

  lemma {:induction false} StepRefines(log: seq<Segment>, op: Op)
    requires LogOk(log) && Enabled(log, op)
    ensures LogOk(Step(log, op)) && Frames(Step(log, op)) == FlatStep(Frames(log), op)
  {
    match op
    case Append(fs) => AppendedOk(log, fs); AppendedFrames(log, fs);
    case Roll => RolledOk(log); RolledFrames(log);
    case Truncate(offset) => TruncatedOk(log, offset); TruncatedFrames(log, offset);
  }

  /** However it was rolled and truncated, the segmented log holds what a plain sequence would. */
  lemma {:induction false} RunRefinesFlat(run: seq<seq<Segment>>, ops: seq<Op>, n: nat)
    requires IsRun(run, ops) && n <= |ops|
    ensures LogOk(run[n]) && Frames(run[n]) == FlatRun(ops[..n])
  {
    if n == 0 {
      assert Contents(run[0]) == [[]];
      FlatOne<Frame>([]);
    } else {
      RunRefinesFlat(run, ops, n - 1);
      assert StepAt(run, ops, n - 1);
      StepRefines(run[n - 1], ops[n - 1]);
      assert ops[..n][..n - 1] == ops[..n - 1];
    }
  }

  // ---------------------------------------------------------------- runs with consecutive appends

  /** No gap, and no empty segment but the last. */
  ghost predicate Tight(log: seq<Segment>) {
    Dense(log) && forall i :: 0 <= i < |log| - 1 ==> log[i].frames != []
  }

  lemma {:induction false} AppendedTight(log: seq<Segment>, fs: seq<Frame>)
    requires Tight(log) && fs != [] && Consecutive(fs, NewestOffset(log) + 1)
    ensures Follows(log, fs) && Tight(Appended(log, fs))
  {
    AppendedOk(log, fs);
    var n := |log| - 1;
    var was, all := log[n].frames, log[n].frames + fs;
    assert NextOffset(log[n]) == log[n].base + |was|;
    assert forall i :: 0 <= i < |all| ==> all[i] == if i < |was| then was[i] else fs[i - |was|];
  }

  lemma {:induction false} RolledTight(log: seq<Segment>)
    requires Tight(log) && log[|log| - 1].frames != []
    ensures Tight(Rolled(log))
  {
    RolledOk(log);
  }

  lemma {:induction false} BelowFirst(log: seq<Segment>, offset: int)
    requires Tight(log) && offset < log[0].base
    ensures Truncated(log, offset) == [Segment(log[0].base, [])]
  {
  }

  lemma {:induction false} PastNewest(log: seq<Segment>, offset: int)
    requires Tight(log) && offset > NewestOffset(log)
    ensures Truncated(log, offset) == log
  {
  }

  lemma {:induction false} StillTight(log: seq<Segment>, cut: seq<Segment>, k: nat)
    requires Tight(log) && k < |log| && Dense(cut) && |cut| <= k + 1 && forall i :: 0 <= i < |cut| - 1 ==>
             cut[i] == log[i]
    ensures Tight(cut)
  {
  }

  lemma {:induction false} TruncatedTight(log: seq<Segment>, offset: int)
    requires Tight(log)
    ensures Tight(Truncated(log, offset))
  {
    if offset < log[0].base {
      BelowFirst(log, offset);
      EmptyTight(log[0]);
    } else if offset > NewestOffset(log) {
      PastNewest(log, offset);
    } else {
      TruncatedNewest(log, offset);
      StillTight(log, Truncated(log, offset), |log| - 1);
    }
  }

  lemma {:induction false} EmptyTight(s: Segment)
    requires SegmentOk(s)
    ensures Tight([Segment(s.base, [])])
  {
  }

  /** An append goes on where the log ends, as a leader's do and a follower's in step with it. */
  ghost predicate GoesOn(log: seq<Segment>, op: Op)
    requires log != []
  {
    op.Append? ==> Consecutive(op.frames, NewestOffset(log) + 1)
  }

  lemma {:induction false} StepTight(log: seq<Segment>, op: Op)
    requires Tight(log) && Enabled(log, op) && GoesOn(log, op)
    ensures Tight(Step(log, op))
  {
    match op
    case Append(fs) => AppendedTight(log, fs);
    case Roll => RolledTight(log);
    case Truncate(offset) => TruncatedTight(log, offset);
  }

  ghost predicate InStepAt(run: seq<seq<Segment>>, ops: seq<Op>, i: nat)
    requires i < |ops| && |run| == |ops| + 1
  {
    run[i] != [] && GoesOn(run[i], ops[i])
  }

  /** After every such run the log has no gap: bases meet, and only the last segment may be empty. */
  lemma {:induction false} RunStaysTight(run: seq<seq<Segment>>, ops: seq<Op>, n: nat)
    requires IsRun(run, ops) && n <= |ops| && forall i :: 0 <= i < |ops| ==> InStepAt(run, ops, i)
    ensures Tight(run[n])
  {
    if n == 0 {
    } else {
      RunStaysTight(run, ops, n - 1);
      assert StepAt(run, ops, n - 1) && InStepAt(run, ops, n - 1);
      StepTight(run[n - 1], ops[n - 1]);
    }
  }
}

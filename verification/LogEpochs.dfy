/** The log and its epoch cache together: what the cache of a log object says about the messages in its segments. */
module LogEpochs {
  import opened Integers
  import opened MessageSet
  import opened Segments
  import opened EpochCache
  import EpochFence
  import opened CommitLog

  function EpochsOf(fs: seq<Frame>): (es: seq<nat>)
    ensures |es| == |fs| && forall i :: 0 <= i < |fs| ==> es[i] == fs[i].leaderEpoch
  {
    seq(|fs|, i requires 0 <= i < |fs| => fs[i].leaderEpoch)
  }

  /** A log without gaps from offset 0 on, as its epochs. */
  function Fenced(fs: seq<Frame>, c: Cache): EpochFence.EpochLog {
    EpochFence.EpochLog(0, EpochsOf(fs), c)
  }

  /** The epochs of the messages never fall, nor below the latest one noted. */
  ghost predicate EpochsRise(latest: nat, fs: seq<Frame>) {
    && (forall i :: 0 <= i < |fs| ==> latest <= fs[i].leaderEpoch)
    && (forall i, j :: 0 <= i <= j < |fs| ==> fs[i].leaderEpoch <= fs[j].leaderEpoch)
  }

  lemma {:induction false} NotedOne(fs: seq<Frame>, f: Frame, c: Cache)
    requires EpochFence.Inv(Fenced(fs, c)) && f.offset == |fs| && LatestEpoch(c) <= f.leaderEpoch
    ensures var d := if f.leaderEpoch > LatestEpoch(c) then Assigned(c, f.leaderEpoch, f.offset) else c;
            EpochFence.Inv(Fenced(fs + [f], d)) && LatestEpoch(d) == f.leaderEpoch
  {
    EpochFence.AppendKeepsInv(Fenced(fs, c), f.leaderEpoch);
    assert EpochsOf(fs + [f]) == EpochsOf(fs) + [f.leaderEpoch];
  }

  /** What an append notes keeps the cache in agreement with the messages. */
  lemma {:induction false} AppendAgrees(fs: seq<Frame>, gs: seq<Frame>, c: Cache)
    requires EpochFence.Inv(Fenced(fs, c)) && Consecutive(gs, |fs|) && EpochsRise(LatestEpoch(c), gs)
    ensures EpochFence.Inv(Fenced(fs + gs, EpochsNoted(c, LatestEpoch(c), gs)))
    decreases |gs|
  {
    if gs == [] {
      assert fs + gs == fs;
    } else {
      var g := gs[0];
      var d := if g.leaderEpoch > LatestEpoch(c) then Assigned(c, g.leaderEpoch, g.offset) else c;
      NotedOne(fs, g, c);
      assert fs + gs == fs + [g] + gs[1..];
      assert EpochsRise(LatestEpoch(d), gs[1..]);
      AppendAgrees(fs + [g], gs[1..], d);
    }
  }

  lemma {:induction false} DenseFrames(log: seq<Segment>, k: nat)
    requires Dense(log) && log != [] && log[0].base == 0 && k <= |log|
    ensures Consecutive(Frames(log[..k]), 0) && |Frames(log[..k])| == if k == 0 then 0 else NextOffset(log[k - 1])
  {
    if k == 0 {
      assert Contents(log[..0]) == [];
    } else {
      DenseFrames(log, k - 1);
      assert log[..k] == log[..k - 1] + [log[k - 1]];
      FramesSnoc(log[..k - 1], log[k - 1]);
      assert SegmentOk(log[k - 1]) && Consecutive(log[k - 1].frames, log[k - 1].base);
    }
  }

  lemma {:induction false} DenseNewest(log: seq<Segment>)
    requires Dense(log) && log != [] && log[0].base == 0
    ensures Consecutive(Frames(log), 0) && |Frames(log)| == NextOffset(log[|log| - 1]) == NewestOffset(log) + 1
  {
    DenseFrames(log, |log|);
    assert log[..|log|] == log;
  }

  lemma {:induction false} BelowIsPrefix(fs: seq<Frame>, offset: nat)
    requires Consecutive(fs, 0)
    ensures Below(fs, offset) == if offset < |fs| then fs[..offset] else fs
  {
    BelowExact(fs, offset);
    var n := |Below(fs, offset)|;
    assert offset < |fs| ==> fs[offset].offset == offset;
    assert 0 < offset <= |fs| ==> fs[offset - 1].offset < offset;
    assert n < |fs| ==> fs[n].offset == n;
  }

  lemma {:induction false} CutAgrees(fs: seq<Frame>, c: Cache, offset: nat)
    requires Consecutive(fs, 0) && EpochFence.Inv(Fenced(fs, c))
    ensures EpochFence.Inv(Fenced(Below(fs, offset), if offset < |fs| then ClearedLatest(c, offset) else c))
  {
    BelowIsPrefix(fs, offset);
    EpochFence.TruncateKeepsInv(Fenced(fs, c), offset);
    if offset < |fs| {
      assert EpochsOf(fs[..offset]) == EpochsOf(fs)[..offset];
    }
  }

  /** So does truncation, segments and cache together. */
  lemma {:induction false} TruncateAgrees(log: seq<Segment>, c: Cache, offset: nat)
    requires Dense(log) && log != [] && log[0].base == 0 && EpochFence.Inv(Fenced(Frames(log), c))
    ensures var d := if SegmentIndex(log, offset) < |log| then ClearedLatest(c, offset) else c;
            EpochFence.Inv(Fenced(Frames(Truncated(log, offset)), d))
  {
    DenseNewest(log);
    SegmentIndexIs(log, offset);
    assert Reaches(log[|log| - 1], offset) <==> SegmentIndex(log, offset) <= |log| - 1;
    TruncatedFrames(log, offset);
    CutAgrees(Frames(log), c, offset);
  }

  /** Opening an epoch at the newest offset does too. */
  lemma {:induction false} OpenAgrees(log: seq<Segment>, c: Cache, epoch: nat)
    requires Dense(log) && log != [] && log[0].base == 0 && EpochFence.Inv(Fenced(Frames(log), c))
    ensures EpochFence.Inv(Fenced(Frames(log), Assigned(c, epoch, NewestOffset(log))))
  {
    DenseNewest(log);
    OpenFenced(Frames(log), c, epoch);
  }

  lemma {:induction false} OpenFenced(fs: seq<Frame>, c: Cache, epoch: nat)
    requires EpochFence.Inv(Fenced(fs, c))
    ensures EpochFence.Inv(Fenced(fs, Assigned(c, epoch, |fs| - 1)))
  {
    EpochFence.OpenKeepsInv(Fenced(fs, c), epoch);
  }

  /** So what the log object answers for an epoch is what the fence is about. */
  lemma {:induction false} AnswerIsFence(log: seq<Segment>, c: Cache, epoch: nat)
    requires Dense(log) && log != [] && log[0].base == 0 && EpochFence.Inv(Fenced(Frames(log), c)) && epoch + 1 < U64
    ensures var end := CachedEnd(c, epoch);
            var answer := if end == -1 then NewestOffset(log) else end;
            var s := Fenced(Frames(log), c);
            && answer == EpochFence.LastOffsetForLeaderEpoch(s, epoch)
            && (EpochFence.Fences(s, epoch, answer) <==> !(EpochFence.StartsAtMinusOne(s, epoch) && |Frames(log)| >= 2))
  {
    DenseNewest(log);
    EpochFence.FenceOfInv(Fenced(Frames(log), c), epoch);
  }
}

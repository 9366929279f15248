/** What a committed reader sees of a segmented log that is appended to and rolled. */
module Serving {
  import opened Bytes
  import opened MessageSet
  import Segments
  import Reader

  function StoredOf(f: Frame): Reader.Stored {
    Reader.Stored(f.offset, FrameBytes(f))
  }

  function FileOf(s: Segments.Segment): (f: Reader.File)
    ensures f.base == s.base && |f.msgs| == |s.frames| && forall k :: 0 <= k < |f.msgs| ==>
            f.msgs[k] == StoredOf(s.frames[k])
  {
    Reader.File(s.base, seq(|s.frames|, k requires 0 <= k < |s.frames| => StoredOf(s.frames[k])))
  }

  function FilesOf(log: seq<Segments.Segment>): (files: seq<Reader.File>)
    ensures |files| == |log| && forall i :: 0 <= i < |log| ==> files[i] == FileOf(log[i])
  {
    seq(|log|, i requires 0 <= i < |log| => FileOf(log[i]))
  }

  lemma {:induction false} FramesWellFramed(f: Frame)
    ensures Reader.WellFramed(StoredOf(f))
  {
    HeaderReadsBack([], f, []);
    assert [] + FrameBytes(f) + [] == FrameBytes(f);
  }

  lemma {:induction false} FileIsOk(s: Segments.Segment)
    requires Segments.SegmentOk(s)
    ensures Reader.FileOk(FileOf(s)) && Reader.NextOffset(FileOf(s)) == Segments.NextOffset(s)
  {
    var f := FileOf(s);
    forall k | 0 <= k < |f.msgs| ensures Reader.WellFramed(f.msgs[k]) {
      FramesWellFramed(s.frames[k]);
    }
  }

  lemma {:induction false} FilesAreOk(log: seq<Segments.Segment>)
    requires Segments.Tight(log)
    ensures Reader.FilesOk(FilesOf(log))
  {
    forall i | 0 <= i < |log| ensures Reader.FileOk(FileOf(log[i])) &&
        Reader.NextOffset(FileOf(log[i])) == Segments.NextOffset(log[i]) {
      FileIsOk(log[i]);
    }
  }

  lemma {:induction false} StepGrows(log: seq<Segments.Segment>, op: Segments.Op)
    requires log != [] && !op.Truncate?
    ensures Reader.Grows(FilesOf(log), FilesOf(Segments.Step(log, op)))
  {
  }

  lemma {:induction false} GrowsOn(a: seq<Reader.File>, b: seq<Reader.File>, c: seq<Reader.File>)
    requires Reader.Grows(a, b) && Reader.Grows(b, c)
    ensures Reader.Grows(a, c)
  {
  }

  lemma {:induction false} RunGrows(run: seq<seq<Segments.Segment>>, ops: seq<Segments.Op>, t: nat, u: nat)
    requires Segments.IsRun(run, ops) && t <= u <= |ops| && forall i :: 0 <= i < |ops| ==> !ops[i].Truncate?
    ensures Reader.Grows(FilesOf(run[t]), FilesOf(run[u]))
    decreases u - t
  {
    if t == u {
    } else {
      RunGrows(run, ops, t, u - 1);
      assert Segments.StepAt(run, ops, u - 1);
      StepGrows(run[u - 1], ops[u - 1]);
      GrowsOn(FilesOf(run[t]), FilesOf(run[u - 1]), FilesOf(run[u]));
    }
  }

  /** The watermark only rises and, once there, names a message of the log. */
  ghost predicate Watermarks(run: seq<seq<Segments.Segment>>, hws: seq<int>) {
    && |hws| == |run| && (forall t, u :: 0 <= t <= u < |hws| ==> hws[t] <= hws[u])
    && forall t :: 0 <= t < |hws| ==> hws[t] == -1 || (0 <= hws[t] && Reader.Present(FilesOf(run[t]), hws[t]))
  }

  function Sights(run: seq<seq<Segments.Segment>>, hws: seq<int>): (env: seq<Reader.Snapshot>)
    requires |hws| == |run|
    ensures |env| == |run| && forall t :: 0 <= t < |run| ==> env[t] == Reader.Snapshot(FilesOf(run[t]), hws[t])
  {
    seq(|run|, t requires 0 <= t < |run| => Reader.Snapshot(FilesOf(run[t]), hws[t]))
  }

  /** So a reader may be run against every run of appends and rolls: what it returns is the flat log in order. */
  lemma {:induction false} RunIsHistory(run: seq<seq<Segments.Segment>>, ops: seq<Segments.Op>, hws: seq<int>)
    requires Segments.IsRun(run, ops) && Watermarks(run, hws)
    requires forall i :: 0 <= i < |ops| ==> Segments.InStepAt(run, ops, i)
    requires forall i :: 0 <= i < |ops| ==> !ops[i].Truncate?
    ensures Reader.History(Sights(run, hws))
  {
    var env := Sights(run, hws);
    forall t: nat | t < |env| ensures Reader.Sight(env, t) {
      Segments.RunStaysTight(run, ops, t);
      FilesAreOk(run[t]);
    }
    forall t: nat, u: nat | t <= u < |env| ensures Reader.Later(env, t, u) {
      RunGrows(run, ops, t, u);
    }
  }

  // ---------------------------------------------------------------- what is served

  lemma {:induction false} AllSnoc(log: seq<Segments.Segment>, s: Segments.Segment)
    ensures Reader.All(FilesOf(log + [s])) == Reader.All(FilesOf(log)) + FileOf(s).msgs
  {
    var runs := Reader.Runs(FilesOf(log + [s]));
    assert runs[..|log|] == Reader.Runs(FilesOf(log)) && runs[|log|] == FileOf(s).msgs;
  }

  /** The messages a reader counts are those of the flat log. */
  lemma {:induction false} AllAreFrames(log: seq<Segments.Segment>)
    ensures var all, frames := Reader.All(FilesOf(log)), Segments.Frames(log);
            |all| == |frames| && forall n :: 0 <= n < |all| ==> all[n] == StoredOf(frames[n])
  {
    if log == [] {
    } else {
      var before, s := log[..|log| - 1], log[|log| - 1];
      assert log == before + [s];
      AllAreFrames(before);
      AllSnoc(before, s);
      Segments.FramesSnoc(before, s);
    }
  }

  /** The bytes are those of the message: its fields, then its data. */
  ghost predicate Tells(bytes: seq<Byte>, f: Frame) {
    && |bytes| == HEADER_LEN + |f.payload| && bytes[HEADER_LEN..] == f.payload
    && GetInt64(bytes, 0) == f.offset && GetInt64(bytes, 8) == f.timestamp && GetUInt(bytes, 16, 8) == f.leaderEpoch
  }

  /** A reader that is given message number `n` is given the bytes of that message of the flat log. */
  lemma {:induction false} DeliversFrame(log: seq<Segments.Segment>, hw: int, n: nat, bytes: seq<Byte>)
    requires Reader.Delivers(Reader.Snapshot(FilesOf(log), hw), n, bytes)
    ensures n < |Segments.Frames(log)| && Segments.Frames(log)[n].offset <= hw && Tells(bytes, Segments.Frames(log)[n])
  {
    AllAreFrames(log);
    var f := Segments.Frames(log)[n];
    HeaderReadsBack([], f, []);
    assert [] + FrameBytes(f) + [] == FrameBytes(f);
  }
}

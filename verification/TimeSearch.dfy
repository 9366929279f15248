/** Finding an offset by timestamp: a search over the segments, then one within a segment. */
module TimeSearch {
  import opened Search
  import opened MessageSet
  import opened Segments

  /** What a lookup by timestamp promises: the first message at or after the time, or the end of the log. */
  function FirstFrom(fs: seq<Frame>, time: int, end: int): int {
    if fs == [] then end
    else if fs[0].timestamp >= time then fs[0].offset
    else FirstFrom(fs[1..], time, end)
  }

  ghost predicate StampsRise(fs: seq<Frame>) {
    forall i, j :: 0 <= i < j < |fs| ==> fs[i].timestamp <= fs[j].timestamp
  }

  function FirstStamp(s: Segment): int
    requires s.frames != []
  {
    s.frames[0].timestamp
  }

  function LastStamp(s: Segment): int
    requires s.frames != []
  {
    s.frames[|s.frames| - 1].timestamp
  }

  ghost predicate NoneEmpty(log: seq<Segment>) {
    forall i :: 0 <= i < |log| ==> log[i].frames != []
  }

  /** Time never runs backwards, within a segment or from one to the next. */
  ghost predicate Timed(log: seq<Segment>) {
    && NoneEmpty(log) && (forall i :: 0 <= i < |log| ==> StampsRise(log[i].frames))
    && forall i, j :: 0 <= i < j < |log| ==> LastStamp(log[i]) <= FirstStamp(log[j])
  }

  // ---------------------------------------------------------------- the two searches

  /** The first segment whose first message is after the time. */
  ghost predicate IsTimeIndex(log: seq<Segment>, time: int, k: nat)
    requires NoneEmpty(log)
  {
    k <= |log| && forall i :: 0 <= i < |log| ==> (FirstStamp(log[i]) > time <==> k <= i)
  }

  lemma {:induction false} StampsOrdered(log: seq<Segment>, i: nat, j: nat)
    requires Timed(log) && i <= j < |log|
    ensures FirstStamp(log[i]) <= LastStamp(log[i]) && FirstStamp(log[i]) <= FirstStamp(log[j])
  {
  }

  /** Right after a roll the active segment is empty. */
  ghost predicate JustRolled(log: seq<Segment>) {
    log != [] && Timed(log[..|log| - 1]) && log[|log| - 1].frames == []
  }

  /** A binary search that has gone right up to `i` probes the last of `n` segments next, or after this one. */
  function LastProbe(i: nat, n: nat): (p: int)
    requires i < n
    ensures i - 1 <= p < n - 1
    decreases n - i
  {
    var h := (i + n) / 2;
    if h == n - 1 then i - 1 else LastProbe(h + 1, n)
  }

  /** The search gets to see the empty segment: there is nothing it probes before, or that is not after the time. */
  predicate SeesEmpty(log: seq<Segment>, time: int)
    requires log != []
  {
    var p := LastProbe(0, |log|);
    p < 0 || log[p].frames == [] || FirstStamp(log[p]) <= time
  }

  /** Reading the first entry of an empty segment fails, and then so does the whole lookup. */
  method FindSegmentIndexByTimestamp(log: seq<Segment>, time: int) returns (k: nat, err: bool)
    ensures Timed(log) ==> !err && IsTimeIndex(log, time, k)
    ensures JustRolled(log) ==> (err <==> SeesEmpty(log, time)) && (!err ==> IsTimeIndex(log[..|log| - 1], time, k))
    ensures err ==> !NoneEmpty(log)
    ensures k <= |log|
  {
    var j: nat;
    k, j, err := 0, |log|, false;
    while k < j
      invariant k <= j <= |log| && (err ==> !NoneEmpty(log))
      invariant Timed(log) ==> Between(log, time, k, j)
      invariant JustRolled(log) ==> RolledBetween(log, time, k, j, err)
    {
      var h := (k + j) / 2;
      if log[h].frames == [] {
        if JustRolled(log) {
          ProbedEmpty(log, time, k, j, err);
        }
        err, j := true, h;
      } else if log[h].frames[0].timestamp > time {
        if Timed(log) {
          ProbedLater(log, time, k, j);
        }
        if JustRolled(log) {
          RolledLater(log, time, k, j, err);
        }
        j := h;
      } else {
        if Timed(log) {
          ProbedEarlier(log, time, k, j);
        }
        if JustRolled(log) {
          RolledEarlier(log, time, k, j, err);
        }
        k := h + 1;
      }
    }
  }

  /** The boundary lies between `k` and `j`. */
  ghost predicate Between(log: seq<Segment>, time: int, k: nat, j: nat)
    requires NoneEmpty(log)
  {
    && (forall i :: 0 <= i < k && i < |log| ==> FirstStamp(log[i]) <= time)
    && (forall i :: j <= i < |log| ==> FirstStamp(log[i]) > time)
  }

  /** Likewise for a log whose last segment is empty; as long as the search has only gone right it has not seen it. */
  ghost predicate RolledBetween(log: seq<Segment>, time: int, k: nat, j: nat, err: bool)
    requires JustRolled(log)
  {
    var n := |log|;
    && k <= j <= n && Between(log[..n - 1], time, k, j)
    && (j == n ==> !err && k < n && LastProbe(k, n) == LastProbe(0, n) && (k > 0 ==> FirstStamp(log[k - 1]) <= time))
    && (j < n ==> (err <==> SeesEmpty(log, time)))
  }

  lemma {:induction false} ProbedLater(log: seq<Segment>, time: int, k: nat, j: nat)
    requires Timed(log) && k < j <= |log| && Between(log, time, k, j) && FirstStamp(log[(k + j) / 2]) > time
    ensures Between(log, time, k, (k + j) / 2)
  {
    forall i: nat | (k + j) / 2 <= i < |log| ensures FirstStamp(log[i]) > time {
      StampsOrdered(log, (k + j) / 2, i);
    }
  }

  lemma {:induction false} ProbedEarlier(log: seq<Segment>, time: int, k: nat, j: nat)
    requires Timed(log) && k < j && (k + j) / 2 < |log| && Between(log, time, k, j) &&
             FirstStamp(log[(k + j) / 2]) <= time
    ensures Between(log, time, (k + j) / 2 + 1, j)
  {
    forall i: nat | i <= (k + j) / 2 ensures FirstStamp(log[i]) <= time {
      StampsOrdered(log, i, (k + j) / 2);
    }
  }

  lemma {:induction false} ProbedEmpty(log: seq<Segment>, time: int, k: nat, j: nat, err: bool)
    requires JustRolled(log) && k < j && RolledBetween(log, time, k, j, err) && log[(k + j) / 2].frames == []
    ensures RolledBetween(log, time, k, (k + j) / 2, true)
  {
    var before := log[..|log| - 1];
    assert forall i :: 0 <= i < |before| ==> before[i] == log[i];
  }

  lemma {:induction false} RolledLater(log: seq<Segment>, time: int, k: nat, j: nat, err: bool)
    requires JustRolled(log) && k < j && RolledBetween(log, time, k, j, err)
    requires log[(k + j) / 2].frames != [] && FirstStamp(log[(k + j) / 2]) > time
    ensures RolledBetween(log, time, k, (k + j) / 2, err)
  {
    var n, h, before := |log|, (k + j) / 2, log[..|log| - 1];
    assert before[h] == log[h];
    LaterBefore(before, time, k, j, h);
    if j == n {
      var p := LastProbe(h + 1, n);
      assert before[p] == log[p];
      StampsOrdered(before, h, p);
    }
  }

  lemma {:induction false} LaterBefore(log: seq<Segment>, time: int, k: nat, j: nat, h: nat)
    requires Timed(log) && h < |log| && Between(log, time, k, j) && FirstStamp(log[h]) > time
    ensures Between(log, time, k, h)
  {
    forall i: nat | h <= i < |log| ensures FirstStamp(log[i]) > time {
      StampsOrdered(log, h, i);
    }
  }

  lemma {:induction false} RolledEarlier(log: seq<Segment>, time: int, k: nat, j: nat, err: bool)
    requires JustRolled(log) && k < j && RolledBetween(log, time, k, j, err)
    requires log[(k + j) / 2].frames != [] && FirstStamp(log[(k + j) / 2]) <= time
    ensures RolledBetween(log, time, (k + j) / 2 + 1, j, err)
  {
    var h, before := (k + j) / 2, log[..|log| - 1];
    assert before[h] == log[h];
    ProbedEarlier(before, time, k, j);
  }

  /** The first entry of a segment at or after the time; nothing if there is none. */
  method FindEntryByTimestamp(fs: seq<Frame>, time: int) returns (r: Option<Frame>)
    ensures StampsRise(fs) ==> (r.None? <==> forall i :: 0 <= i < |fs| ==> fs[i].timestamp < time)
    ensures StampsRise(fs) && r.Some? ==> exists k :: IsFirst(fs, time, k) && r.value == fs[k]
  {
    var k: nat, j: nat := 0, |fs|;
    while k < j
      invariant k <= j <= |fs|
      invariant StampsRise(fs) ==> forall i :: 0 <= i < k ==> fs[i].timestamp < time
      invariant StampsRise(fs) ==> forall i :: j <= i < |fs| ==> fs[i].timestamp >= time
    {
      var h := (k + j) / 2;
      if fs[h].timestamp >= time {
        j := h;
      } else {
        k := h + 1;
      }
    }
    if k == |fs| {
      return None;
    }
    assert StampsRise(fs) ==> IsFirst(fs, time, k);
    return Some(fs[k]);
  }

  ghost predicate IsFirst(fs: seq<Frame>, time: int, k: int) {
    0 <= k < |fs| && fs[k].timestamp >= time && forall i :: 0 <= i < k ==> fs[i].timestamp < time
  }

  // ---------------------------------------------------------------- against the flat log

  lemma {:induction false} SkipsEarlier(a: seq<Frame>, b: seq<Frame>, time: int, end: int)
    requires forall i :: 0 <= i < |a| ==> a[i].timestamp < time
    ensures FirstFrom(a + b, time, end) == FirstFrom(b, time, end)
  {
    if a == [] {
      assert a + b == b;
    } else {
      assert (a + b)[1..] == a[1..] + b;
      SkipsEarlier(a[1..], b, time, end);
    }
  }

  lemma {:induction false} FindsFirst(a: seq<Frame>, b: seq<Frame>, time: int, end: int, k: nat)
    requires IsFirst(a, time, k)
    ensures FirstFrom(a + b, time, end) == a[k].offset
  {
    if k == 0 {
      assert (a + b)[0] == a[0];
    } else {
      assert (a + b)[1..] == a[1..] + b;
      FindsFirst(a[1..], b, time, end, k - 1);
    }
  }

  /** The time is that of the last message of one segment and of the first message of the next. */
  ghost predicate SplitStamp(log: seq<Segment>, time: int)
    requires NoneEmpty(log)
  {
    exists i :: 0 <= i < |log| - 1 && LastStamp(log[i]) == time == FirstStamp(log[i + 1])
  }

  /** All messages of the segments before `k` are earlier than the time. */
  lemma {:induction false} EarlierSegments(log: seq<Segment>, k: nat, time: int)
    requires Timed(log) && k <= |log| && (0 < k ==> LastStamp(log[k - 1]) < time)
    ensures forall i :: 0 <= i < |Frames(log[..k])| ==> Frames(log[..k])[i].timestamp < time
  {
    if k > 0 {
      assert log[..k] == log[..k - 1] + [log[k - 1]];
      FramesSnoc(log[..k - 1], log[k - 1]);
      assert StampsRise(log[k - 1].frames);
      if k > 1 {
        StampsOrdered(log, k - 1, k - 1);
        assert LastStamp(log[k - 2]) <= FirstStamp(log[k - 1]);
      }
      EarlierSegments(log, k - 1, time);
    } else {
      assert Contents(log[..0]) == [];
    }
  }

  /** The first message of segment `k` is what a scan finds when everything before it is earlier. */
  lemma {:induction false} ScanReaches(log: seq<Segment>, k: nat, time: int, end: int, m: nat)
    requires Timed(log) && k < |log| && (0 < k ==> LastStamp(log[k - 1]) < time) && IsFirst(log[k].frames, time, m)
    ensures FirstFrom(Frames(log), time, end) == log[k].frames[m].offset
  {
    EarlierSegments(log, k, time);
    FramesSplit(log, k);
    SkipsEarlier(Frames(log[..k]), log[k].frames + Frames(log[k + 1..]), time, end);
    FindsFirst(log[k].frames, Frames(log[k + 1..]), time, end, m);
  }

  lemma {:induction false} ScanEnds(log: seq<Segment>, time: int, end: int)
    requires Timed(log) && log != [] && LastStamp(log[|log| - 1]) < time
    ensures FirstFrom(Frames(log), time, end) == end
  {
    EarlierSegments(log, |log|, time);
    assert log[..|log|] == log && Frames(log) + [] == Frames(log);
    SkipsEarlier(Frames(log), [], time, end);
  }

  /** A message at the time in an earlier segment is found by a scan, and comes before the segment. */
  lemma {:induction false} ScanFindsEarlier(log: seq<Segment>, k: nat, time: int, end: int)
    requires Timed(log) && LogOk(log) && 0 < k < |log| && LastStamp(log[k - 1]) >= time
    ensures FirstFrom(Frames(log), time, end) < log[k].base
  {
    var a, b := Frames(log[..k]), log[k].frames + Frames(log[k + 1..]);
    FramesSplit(log, k);
    PrefixOk(log, k);
    FramesRise(log[..k]);
    EndsAs(log, k);
    var n := FoundBefore(a, b, time, end);
  }

  /** The first segments together end as the last of them does. */
  lemma {:induction false} EndsAs(log: seq<Segment>, k: nat)
    requires 0 < k <= |log| && log[k - 1].frames != []
    ensures var a, last := Frames(log[..k]), log[k - 1].frames; a != [] && a[|a| - 1] == last[|last| - 1]
  {
    assert log[..k] == log[..k - 1] + [log[k - 1]];
    FramesSnoc(log[..k - 1], log[k - 1]);
  }

  lemma {:induction false} FoundBefore(a: seq<Frame>, b: seq<Frame>, time: int, end: int) returns (k: nat)
    requires a != [] && a[|a| - 1].timestamp >= time
    ensures k < |a| && FirstFrom(a + b, time, end) == a[k].offset
  {
    if a[0].timestamp >= time {
      k := 0;
    } else {
      assert (a + b)[1..] == a[1..] + b;
      var m := FoundBefore(a[1..], b, time, end);
      k := m + 1;
    }
  }

  /** The answer in that case: the first message of the last segment that begins at the time. */
  ghost predicate BeginsLast(log: seq<Segment>, time: int, offset: int)
    requires NoneEmpty(log)
  {
    exists j :: 0 < j < |log| && FirstStamp(log[j]) == time && (j + 1 < |log| ==> FirstStamp(log[j + 1]) > time) &&
                offset == log[j].frames[0].offset
  }

  lemma {:induction false} SplitAnswer(log: seq<Segment>, time: int, k: nat, e: Option<Frame>)
    requires Timed(log) && IsTimeIndex(log, time, k) && 2 <= k && LastStamp(log[k - 2]) >= time
    requires Found(log[k - 1].frames, time, e)
    ensures e.Some? && BeginsLast(log, time, e.value.offset)
  {
    var j := k - 1;
    assert LastStamp(log[k - 2]) <= FirstStamp(log[j]);
    assert FirstStamp(log[j]) == time && (j + 1 < |log| ==> FirstStamp(log[j + 1]) > time);
    assert log[j].frames[0].timestamp == time;
    var m :| IsFirst(log[j].frames, time, m) && e.value == log[j].frames[m];
    assert m == 0;
  }

  /** The split case, seen from the segment the search picks. */
  lemma {:induction false} SplitAt(log: seq<Segment>, time: int, k: nat)
    requires Timed(log) && IsTimeIndex(log, time, k)
    ensures SplitStamp(log, time) <==> 2 <= k && LastStamp(log[k - 2]) >= time
  {
    if 2 <= k && LastStamp(log[k - 2]) >= time {
      assert FirstStamp(log[k - 1]) <= time;
      var i := k - 2;
      assert LastStamp(log[i]) == time == FirstStamp(log[i + 1]);
    }
    if i :| 0 <= i < |log| - 1 && LastStamp(log[i]) == time == FirstStamp(log[i + 1]) {
      assert i + 1 < k;
      if i < k - 2 {
        assert LastStamp(log[i]) <= FirstStamp(log[k - 2]);
        StampsOrdered(log, k - 2, k - 2);
      }
    }
  }

  /**
   * The lookup. On a timed log without empty segments it returns what a scan of the whole log would, unless the
   * time falls on both sides of a segment boundary; then it returns a later offset, the first one of the last segment
   * that begins at the time. When the active segment is empty it fails exactly if the search gets to see that segment,
   * and otherwise answers as before.
   */
  method OffsetForTimestamp(log: seq<Segment>, time: int) returns (r: Option<int>)
    requires log != []
    ensures Timed(log) && LogOk(log) ==> r.Some? && (IsScan(log, time, r.value) <==> !SplitStamp(log, time))
    ensures Timed(log) && LogOk(log) && SplitStamp(log, time) ==> BeginsLast(log, time, r.value)
    ensures JustRolled(log) && LogOk(log) ==> (r.None? <==> SeesEmpty(log, time))
    ensures JustRolled(log) && LogOk(log) && r.Some? ==>
              && (IsScan(log, time, r.value) <==> !SplitStamp(log[..|log| - 1], time))
              && (SplitStamp(log[..|log| - 1], time) ==> BeginsLast(log[..|log| - 1], time, r.value))
  {
    var k, err := FindSegmentIndexByTimestamp(log, time);
    if err {
      return None;
    }
    var first := FindEntryByTimestamp(log[if k == 0 then 0 else k - 1].frames, time);
    if first.Some? {
      r := Some(first.value.offset);
    } else if k < |log| {
      var second := FindEntryByTimestamp(log[k].frames, time);
      r := if second.None? then None else Some(second.value.offset);
    } else {
      r := Some(NextOffset(log[|log| - 1]));
    }
    if LogOk(log) {
      if Timed(log) {
        assert Found(log[if k == 0 then 0 else k - 1].frames, time, first);
        TimedAnswer(log, time, k, first);
      } else if JustRolled(log) {
        IndexInRange(log, time, k);
        assert Found(log[if k == 0 then 0 else k - 1].frames, time, first);
        RolledAnswer(log, time, k, first);
      }
    }
  }

  /** What a scan of all messages would return. */
  predicate IsScan(log: seq<Segment>, time: int, offset: int)
    requires log != []
  {
    offset == FirstFrom(Frames(log), time, NewestOffset(log) + 1)
  }

  lemma {:induction false} TimedAnswer(log: seq<Segment>, time: int, k: nat, e: Option<Frame>)
    requires Timed(log) && LogOk(log) && log != [] && IsTimeIndex(log, time, k)
    requires Found(log[if k == 0 then 0 else k - 1].frames, time, e)
    ensures e.Some? ==> (IsScan(log, time, e.value.offset) <==> !SplitStamp(log, time))
    ensures SplitStamp(log, time) ==> e.Some? && BeginsLast(log, time, e.value.offset)
    ensures e.None? && k < |log| ==>
              StampsRise(log[k].frames) && IsFirst(log[k].frames, time, 0) && IsScan(log, time, log[k].frames[0].offset)
    ensures e.None? && k == |log| ==> IsScan(log, time, NextOffset(log[|log| - 1]))
  {
    Answer(log, time, k, e, NewestOffset(log) + 1);
  }

  lemma {:induction false} IndexInRange(log: seq<Segment>, time: int, k: nat)
    requires JustRolled(log) && !SeesEmpty(log, time) && IsTimeIndex(log[..|log| - 1], time, k)
    ensures k < |log| - 1 && !Timed(log) && (k > 0 ==> StampsRise(log[k - 1].frames)) && StampsRise(log[0].frames)
  {
    var before, p := log[..|log| - 1], LastProbe(0, |log|);
    assert before[p] == log[p] && before[0] == log[0];
    assert k > 0 ==> before[k - 1] == log[k - 1];
  }

  lemma {:induction false} RolledFrames(log: seq<Segment>)
    requires log != [] && log[|log| - 1].frames == []
    ensures Frames(log) == Frames(log[..|log| - 1])
  {
    var n, before := |log|, log[..|log| - 1];
    assert log == before + [log[n - 1]];
    FramesSnoc(before, log[n - 1]);
    assert Frames(before) + [] == Frames(before);
  }

  lemma {:induction false} RolledAnswer(log: seq<Segment>, time: int, k: nat, e: Option<Frame>)
    requires JustRolled(log) && LogOk(log) && k < |log| - 1 && IsTimeIndex(log[..|log| - 1], time, k)
    requires Found(log[if k == 0 then 0 else k - 1].frames, time, e)
    ensures var before := log[..|log| - 1];
            && StampsRise(log[k].frames)
            && (e.Some? ==> (IsScan(log, time, e.value.offset) <==> !SplitStamp(before, time)))
            && (SplitStamp(before, time) ==> e.Some? && BeginsLast(before, time, e.value.offset))
            && (e.None? ==> && !SplitStamp(before, time) && IsFirst(log[k].frames, time, 0)
                            && IsScan(log, time, log[k].frames[0].offset))
  {
    var before := log[..|log| - 1];
    RolledFrames(log);
    PrefixOk(log, |log| - 1);
    assert before[k] == log[k] && before[if k == 0 then 0 else k - 1] == log[if k == 0 then 0 else k - 1];
    AnswerBefore(before, time, k, e, NewestOffset(log) + 1);
  }

  lemma {:induction false} AnswerBefore(log: seq<Segment>, time: int, k: nat, e: Option<Frame>, end: int)
    requires Timed(log) && LogOk(log) && k < |log| && IsTimeIndex(log, time, k)
    requires Found(log[if k == 0 then 0 else k - 1].frames, time, e)
    ensures StampsRise(log[k].frames)
    ensures e.Some? ==> (e.value.offset == FirstFrom(Frames(log), time, end) <==> !SplitStamp(log, time))
    ensures SplitStamp(log, time) ==> e.Some? && BeginsLast(log, time, e.value.offset)
    ensures e.None? ==> !SplitStamp(log, time) && IsFirst(log[k].frames, time, 0)
    ensures e.None? ==> FirstFrom(Frames(log), time, end) == log[k].frames[0].offset
  {
    Answer(log, time, k, e, end);
  }

  /** What the second search contributes. */
  ghost predicate Found(fs: seq<Frame>, time: int, e: Option<Frame>) {
    if e.None? then forall i :: 0 <= i < |fs| ==> fs[i].timestamp < time
    else exists m :: IsFirst(fs, time, m) && e.value == fs[m]
  }

  lemma {:induction false} Answer(log: seq<Segment>, time: int, k: nat, e: Option<Frame>, end: int)
    requires Timed(log) && LogOk(log) && log != [] && IsTimeIndex(log, time, k)
    requires Found(log[if k == 0 then 0 else k - 1].frames, time, e)
    ensures e.Some? ==> (e.value.offset == FirstFrom(Frames(log), time, end) <==> !SplitStamp(log, time))
    ensures SplitStamp(log, time) ==> e.Some? && BeginsLast(log, time, e.value.offset)
    ensures e.None? && k < |log| ==>
              0 < k && IsFirst(log[k].frames, time, 0) && FirstFrom(Frames(log), time, end) == log[k].frames[0].offset
    ensures e.None? && k == |log| ==> FirstFrom(Frames(log), time, end) == end
  {
    SplitAt(log, time, k);
    var s := if k == 0 then 0 else k - 1;
    if 2 <= k && LastStamp(log[k - 2]) >= time {
      SplitAnswer(log, time, k, e);
      assert FirstStamp(log[s]) >= time;
      ScanFindsEarlier(log, s, time, end);
      assert SegmentOk(log[s]);
    } else if e.Some? {
      var m :| IsFirst(log[s].frames, time, m) && e.value == log[s].frames[m];
      ScanReaches(log, s, time, end, m);
    } else if k < |log| {
      assert FirstStamp(log[k]) > time;
      assert IsFirst(log[k].frames, time, 0);
      ScanReaches(log, k, time, end, 0);
    } else {
      ScanEnds(log, time, end);
    }
  }

  const SPLIT: seq<Segment> := [Segment(0, [Frame(0, 5, 1, [])]), Segment(1, [Frame(1, 5, 1, [])])]

  /** Two messages of the same time on both sides of a roll: such a log exists. */
  lemma {:induction false} SplitStampExists()
    ensures Timed(SPLIT) && LogOk(SPLIT) && SplitStamp(SPLIT, 5)
  {
    assert LastStamp(SPLIT[0]) == 5 == FirstStamp(SPLIT[0 + 1]);
  }
}

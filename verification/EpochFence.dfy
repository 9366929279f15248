/** The leader epoch cache kept beside a log with contiguous offsets: what the answer to a
    leader epoch offset request says about the messages, in every run of the log. */
module EpochFence {
  import opened Integers
  import opened EpochCache

  /** A log as its epochs: message `i` has offset `base + i` and leader epoch `epochs[i]`. */
  datatype EpochLog = EpochLog(base: nat, epochs: seq<nat>, cache: Cache) {
    function NextOffset(): nat { base + |epochs| }

    function NewestOffset(): int { base + |epochs| - 1 }
  }

  /** `append` records the first offset of an epoch it has not seen. */
  function CacheAfterAppend(c: Cache, epoch: nat, offset: int): Cache {
    if epoch > LatestEpoch(c) then Assigned(c, epoch, offset) else c
  }

  function Append(s: EpochLog, epoch: nat): EpochLog {
    EpochLog(s.base, s.epochs + [epoch], CacheAfterAppend(s.cache, epoch, s.NextOffset()))
  }

  /** `NewLeaderEpoch` records the newest offset, one less than `append` would. */
  function Open(s: EpochLog, epoch: nat): EpochLog {
    s.(cache := Assigned(s.cache, epoch, s.NewestOffset()))
  }

  function Truncate(s: EpochLog, offset: nat): EpochLog {
    if offset > s.NewestOffset() then s
    else
      var kept := if offset < s.base then 0 else offset - s.base;
      EpochLog(s.base, s.epochs[..kept], ClearedLatest(s.cache, offset))
  }

  /** Retention makes `offset` the first one. */
  function Retain(s: EpochLog, offset: nat): EpochLog
    requires s.base <= offset <= s.NextOffset()
  {
    EpochLog(offset, s.epochs[offset - s.base..], ClearedEarliest(s.cache, offset))
  }

  function LastOffsetForLeaderEpoch(s: EpochLog, epoch: nat): int {
    var offset := CachedEnd(s.cache, epoch);
    if offset == -1 then s.NewestOffset() else offset
  }

  datatype Op = AppendOp(epoch: nat) | OpenOp(epoch: nat) | TruncateOp(offset: nat) | RetainOp(offset: nat)

  predicate Step(s: EpochLog, op: Op, t: EpochLog) {
    match op
    case AppendOp(e) => t == Append(s, e)
    case OpenOp(e) => t == Open(s, e)
    case TruncateOp(o) => t == Truncate(s, o)
    case RetainOp(o) => s.base <= o <= s.NextOffset() && t == Retain(s, o)
  }

  /** The appended epoch is not below the latest one; retention does not cut inside an epoch that another follows. */
  ghost predicate Orderly(s: EpochLog, op: Op) {
    (op.AppendOp? ==> LatestEpoch(s.cache) <= op.epoch) && (op.RetainOp? ==> !CutsInside(s.cache, op.offset))
  }

  ghost predicate OrderlyUntil(run: seq<EpochLog>, ops: seq<Op>, n: nat)
    requires |run| == |ops| + 1 && n <= |ops|
  {
    forall i :: 0 <= i < n ==> Orderly(run[i], ops[i])
  }

  ghost predicate IsRun(run: seq<EpochLog>, ops: seq<Op>) {
    && |run| == |ops| + 1
    && run[0] == EpochLog(0, [], [])
    && forall i :: 0 <= i < |ops| ==> StepAt(run, ops, i)
  }

  ghost predicate StepAt(run: seq<EpochLog>, ops: seq<Op>, i: nat)
    requires i < |ops| && |run| == |ops| + 1
  {
    Step(run[i], ops[i], run[i + 1])
  }

  ghost predicate Covered(s: EpochLog, i: nat)
    requires i < |s.epochs|
  {
    s.epochs[i] == 0
    || exists k :: 0 <= k < |s.cache| && s.cache[k].leaderEpoch >= s.epochs[i] && s.cache[k].startOffset <= s.base + i
  }

  ghost predicate Split(s: EpochLog, e: EpochOffset, i: nat)
    requires i < |s.epochs|
  {
    if s.epochs[i] < e.leaderEpoch then s.base + i <= e.startOffset else e.startOffset <= s.base + i
  }

  ghost predicate NonDecreasing(epochs: seq<nat>) {
    forall i, j :: 0 <= i <= j < |epochs| ==> epochs[i] <= epochs[j]
  }

  /** What every step keeps: the cache is ordered, each entry splits the messages at its epoch,
      and each message is covered by an entry of its own or a later epoch. */
  ghost predicate Inv(s: EpochLog) {
    && Ordered(s.cache)
    && NonDecreasing(s.epochs)
    && (forall k :: 0 <= k < |s.cache| ==> -1 <= s.cache[k].startOffset <= s.NextOffset())
    && (forall i :: 0 <= i < |s.epochs| ==> Covered(s, i))
    && (forall k, i :: 0 <= k < |s.cache| && 0 <= i < |s.epochs| ==> Split(s, s.cache[k], i))
  }

  lemma {:induction false} EpochsBounded(s: EpochLog)
    requires Inv(s)
    ensures forall i :: 0 <= i < |s.epochs| ==> s.epochs[i] <= LatestEpoch(s.cache)
  {
    forall i | 0 <= i < |s.epochs| ensures s.epochs[i] <= LatestEpoch(s.cache) {
      assert Covered(s, i);
    }
  }

  lemma {:induction false} AppendKeepsInv(s: EpochLog, e: nat)
    requires Inv(s) && LatestEpoch(s.cache) <= e
    ensures Inv(Append(s, e))
  {
    EpochsBounded(s);
    var t := Append(s, e);
    var n := |s.epochs|;
    assert t.cache == if e > LatestEpoch(s.cache) then s.cache + [EpochOffset(e, s.NextOffset())] else s.cache;
    forall i | 0 <= i < |t.epochs| ensures Covered(t, i) {
      if i < n {
        assert Covered(s, i);
        if k :|
            && s.epochs[i] != 0 && 0 <= k < |s.cache|
            && s.cache[k].leaderEpoch >= s.epochs[i] && s.cache[k].startOffset <= s.base + i
        {
          assert t.cache[k] == s.cache[k];
        }
      } else if e != 0 {
        var k := |t.cache| - 1;
        assert t.cache[k].leaderEpoch >= e;
      }
    }
    forall k, i | 0 <= k < |t.cache| && 0 <= i < |t.epochs| ensures Split(t, t.cache[k], i) {
      if i < n && k < |s.cache| { assert Split(s, s.cache[k], i); }
    }
  }

  lemma {:induction false} OpenKeepsInv(s: EpochLog, e: nat)
    requires Inv(s)
    ensures Inv(Open(s, e))
  {
    EpochsBounded(s);
    var t := Open(s, e);
    forall i | 0 <= i < |t.epochs| ensures Covered(t, i) {
      assert Covered(s, i);
      if k :|
          && s.epochs[i] != 0 && 0 <= k < |s.cache|
          && s.cache[k].leaderEpoch >= s.epochs[i] && s.cache[k].startOffset <= s.base + i
      {
        assert t.cache[k] == s.cache[k];
      }
    }
    forall k, i | 0 <= k < |t.cache| && 0 <= i < |t.epochs| ensures Split(t, t.cache[k], i) {
      if k < |s.cache| { assert Split(s, s.cache[k], i); }
    }
  }

  lemma {:induction false} TruncateKeepsInv(s: EpochLog, o: nat)
    requires Inv(s)
    ensures Inv(Truncate(s, o))
  {
    if o <= s.NewestOffset() {
      var t := Truncate(s, o);
      ClearedLatestKeeps(s.cache, o);
      forall i | 0 <= i < |t.epochs| ensures Covered(t, i) {
        assert Covered(s, i);
        if k :|
            && s.epochs[i] != 0 && 0 <= k < |s.cache|
            && s.cache[k].leaderEpoch >= s.epochs[i] && s.cache[k].startOffset <= s.base + i
        {
          assert t.cache[k] == s.cache[k];
        }
      }
      forall k, i | 0 <= k < |t.cache| && 0 <= i < |t.epochs| ensures Split(t, t.cache[k], i) {
        assert Split(s, s.cache[k], i);
      }
    }
  }

  /** Retention keeps the agreement if and only if it does not cut inside an epoch that another follows. */
  lemma {:induction false} RetainKeepsInv(s: EpochLog, o: nat)
    requires Inv(s) && s.base <= o <= s.NextOffset()
    ensures Inv(Retain(s, o)) <==> !CutsInside(s.cache, o)
  {
    if CutsInside(s.cache, o) {
      var k := CutPoint(s.cache, o);
      ClearedByCut(s.cache, o, k);
      var c := Retain(s, o).cache;
      assert c[|c| - 2] == s.cache[|s.cache| - 1] && c[|c| - 1] == EpochOffset(s.cache[k - 1].leaderEpoch, o);
    } else {
      RetainInOrder(s, o);
    }
  }

  lemma {:induction false} RetainInOrder(s: EpochLog, o: nat)
    requires Inv(s) && s.base <= o <= s.NextOffset() && !CutsInside(s.cache, o)
    ensures Inv(Retain(s, o))
  {
    var b := RetainedCache(s.cache, o);
    var t := Retain(s, o);
    if 0 < b == |s.cache| {
      RetainLastEpoch(s, o, t);
    } else {
      RetainSuffix(s, o, b, t);
    }
  }

  lemma {:induction false} RetainedCache(c: Cache, o: nat) returns (b: nat)
    requires Ordered(c) && !CutsInside(c, o)
    ensures b <= |c|
    ensures 0 < b < |c| ==> c[b].startOffset == o
    ensures 0 < b == |c| ==> c[b - 1].startOffset < o && ClearedEarliest(c, o) == [EpochOffset(LatestEpoch(c), o)]
    ensures !(0 < b == |c|) ==> ClearedEarliest(c, o) == c[b..]
  {
    b := ClearEarliestOrder(c, o);
  }

  lemma {:induction false} RetainLastEpoch(s: EpochLog, o: nat, t: EpochLog)
    requires Inv(s) && s.base <= o <= s.NextOffset() && s.cache != []
    requires s.cache[|s.cache| - 1].startOffset < o
    requires t == EpochLog(o, s.epochs[o - s.base..], [EpochOffset(LatestEpoch(s.cache), o)])
    ensures Inv(t)
  {
    EpochsBounded(s);
    forall i | 0 <= i < |t.epochs| ensures Covered(t, i) && Split(t, t.cache[0], i) {
      assert Split(s, s.cache[|s.cache| - 1], o - s.base + i);
      assert t.cache[0].leaderEpoch >= t.epochs[i];
    }
  }

  lemma {:induction false} RetainSuffix(s: EpochLog, o: nat, b: nat, t: EpochLog)
    requires Inv(s) && s.base <= o <= s.NextOffset() && b <= |s.cache|
    requires 0 < b ==> b < |s.cache| && s.cache[b].startOffset == o
    requires t == EpochLog(o, s.epochs[o - s.base..], s.cache[b..])
    ensures Inv(t)
  {
    var d := o - s.base;
    OrderedSuffix(s.cache, b);
    forall i | 0 <= i < |t.epochs| ensures Covered(t, i) {
      SuffixCovers(s, d, b, t, i);
    }
    forall k, i | 0 <= k < |t.cache| && 0 <= i < |t.epochs| ensures Split(t, t.cache[k], i) {
      assert Split(s, s.cache[b + k], d + i);
    }
  }

  lemma {:induction false} SuffixCovers(s: EpochLog, d: nat, b: nat, t: EpochLog, i: nat)
    requires Ordered(s.cache) && b <= |s.cache| && d <= |s.epochs| && i < |t.epochs|
    requires t == EpochLog(s.base + d, s.epochs[d..], s.cache[b..]) && Covered(s, d + i)
    requires 0 < b ==> b < |s.cache| && s.cache[b].startOffset == t.base
    ensures Covered(t, i)
  {
  }

  lemma {:induction false} RunKeepsInv(run: seq<EpochLog>, ops: seq<Op>, n: nat)
    requires IsRun(run, ops) && n < |run| && OrderlyUntil(run, ops, n)
    ensures Inv(run[n])
  {
    if n == 0 {
    } else {
      RunKeepsInv(run, ops, n - 1);
      assert StepAt(run, ops, n - 1) && Orderly(run[n - 1], ops[n - 1]);
      match ops[n - 1] {
        case AppendOp(e) => AppendKeepsInv(run[n - 1], e);
        case OpenOp(e) => OpenKeepsInv(run[n - 1], e);
        case TruncateOp(o) => TruncateKeepsInv(run[n - 1], o);
        case RetainOp(o) => RetainKeepsInv(run[n - 1], o);
      }
    }
  }

  /** The offset separates the epochs: nothing up to `epoch` lies above it, nothing later lies below it. */
  ghost predicate Fences(s: EpochLog, epoch: nat, offset: int) {
    forall i :: 0 <= i < |s.epochs| ==> if s.epochs[i] <= epoch then s.base + i <= offset else offset <= s.base + i
  }

  /** An epoch opened on an empty log starts at -1, which the lookup takes for "not found". */
  ghost predicate StartsAtMinusOne(s: EpochLog, epoch: nat) {
    var e := FindEpoch(s.cache, epoch + 1);
    e.Some? && e.value.startOffset == -1
  }

  /** In every orderly run the answer for an epoch separates the messages at that epoch, except exactly when the next
      epoch was opened on an empty log that has since received two messages or more. */
  lemma {:induction false} EpochFence(run: seq<EpochLog>, ops: seq<Op>, n: nat, epoch: nat)
    requires IsRun(run, ops) && n < |run| && OrderlyUntil(run, ops, n) && epoch + 1 < U64
    ensures var s := run[n];
            && Ordered(s.cache)
            && (Fences(s, epoch, LastOffsetForLeaderEpoch(s, epoch)) <==>
                !(StartsAtMinusOne(s, epoch) && |s.epochs| >= 2))
  {
    RunKeepsInv(run, ops, n);
    FenceOfInv(run[n], epoch);
  }

  /** The answer and its special case, by the position of the first later epoch. */
  lemma {:induction false} AnswerAt(s: EpochLog, epoch: nat) returns (k: nat)
    requires Ordered(s.cache) && epoch + 1 < U64
    ensures k <= |s.cache|
    ensures forall j :: 0 <= j < |s.cache| ==> (s.cache[j].leaderEpoch > epoch <==> k <= j)
    ensures LastOffsetForLeaderEpoch(s, epoch) ==
            if k < |s.cache| && s.cache[k].startOffset != -1 then s.cache[k].startOffset else s.NewestOffset()
    ensures StartsAtMinusOne(s, epoch) <==> k < |s.cache| && s.cache[k].startOffset == -1
  {
    LookupSplits(s.cache, epoch + 1);
    k := EpochIndex(s.cache, epoch + 1);
  }

  lemma {:induction false} FenceOfInv(s: EpochLog, epoch: nat)
    requires Inv(s) && epoch + 1 < U64
    ensures Fences(s, epoch, LastOffsetForLeaderEpoch(s, epoch)) <==> !(StartsAtMinusOne(s, epoch) && |s.epochs| >= 2)
  {
    EpochsBounded(s);
    var k := AnswerAt(s, epoch);
    if k == |s.cache| {
      assert |s.cache| > 0 ==> s.cache[|s.cache| - 1].leaderEpoch <= epoch;
    } else if s.cache[k].startOffset == -1 {
      forall i | 0 <= i < |s.epochs| ensures s.epochs[i] > epoch {
        assert Split(s, s.cache[k], i);
      }
      assert |s.epochs| >= 2 ==> s.epochs[0] > epoch;
    } else {
      forall i | 0 <= i < |s.epochs|
        ensures if s.epochs[i] <= epoch then s.base + i <= s.cache[k].startOffset
                else s.cache[k].startOffset <= s.base + i
      {
        SplitAtAnswer(s, epoch, k, i);
      }
    }
  }

  lemma {:induction false} SplitAtAnswer(s: EpochLog, epoch: nat, k: nat, i: nat)
    requires Inv(s) && i < |s.epochs| && k < |s.cache|
    requires s.cache[k].leaderEpoch > epoch
    requires forall j :: 0 <= j < k ==> s.cache[j].leaderEpoch <= epoch
    ensures if s.epochs[i] <= epoch then s.base + i <= s.cache[k].startOffset else s.cache[k].startOffset <= s.base + i
  {
    assert Split(s, s.cache[k], i);
    if s.epochs[i] > epoch {
      assert Covered(s, i);
      var j :| 0 <= j < |s.cache| && s.cache[j].leaderEpoch >= s.epochs[i] && s.cache[j].startOffset <= s.base + i;
      assert k <= j;
    }
  }

  /** The exception is real: epoch 2 opened on an empty log, two messages later. A replica that last saw
      epoch 1 is told to keep everything up to the newest offset. */
  lemma {:induction false} EmptyLogBreaksFence() returns (run: seq<EpochLog>, ops: seq<Op>)
    ensures IsRun(run, ops) && OrderlyUntil(run, ops, |ops|)
    ensures !Fences(run[|run| - 1], 1, LastOffsetForLeaderEpoch(run[|run| - 1], 1))
  {
    ops := [OpenOp(2), AppendOp(2), AppendOp(2)];
    var c := [EpochOffset(2, -1)];
    run := [EpochLog(0, [], []), EpochLog(0, [], c), EpochLog(0, [2], c), EpochLog(0, [2, 2], c)];
    assert run[3].epochs[0] == 2;
    LookupSplits(c, 2);
  }
}

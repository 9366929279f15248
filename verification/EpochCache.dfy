/** The leader epoch cache: the start offset of every leader epoch a log has seen. */
module EpochCache {
  import opened Integers
  import opened Search

  datatype EpochOffset = EpochOffset(leaderEpoch: nat, startOffset: int)

  type Cache = seq<EpochOffset>

  function LatestEpoch(c: Cache): nat {
    if c == [] then 0 else c[|c| - 1].leaderEpoch
  }

  function LatestOffset(c: Cache): int {
    if c == [] then -1 else c[|c| - 1].startOffset
  }

  function EarliestOffset(c: Cache): int {
    if c == [] then -1 else c[0].startOffset
  }

  /** What an undamaged cache looks like: epochs strictly increase and their starts never decrease. */
  ghost predicate Ordered(c: Cache) {
    forall i, j :: 0 <= i < j < |c| ==> c[i].leaderEpoch < c[j].leaderEpoch && c[i].startOffset <= c[j].startOffset
  }

  // ---------------------------------------------------------------- lookup

  function EpochIndex(c: Cache, epoch: nat): (k: nat)
    ensures k <= |c|
    ensures k < |c| ==> c[k].leaderEpoch >= epoch
    ensures 0 < k ==> c[k - 1].leaderEpoch < epoch
  {
    Search.Search(|c|, i requires 0 <= i < |c| => c[i].leaderEpoch >= epoch)
  }

  function FindEpoch(c: Cache, epoch: nat): Option<EpochOffset> {
    var i := EpochIndex(c, epoch);
    if i < |c| then Some(c[i]) else None
  }

  /** The epoch is a 64-bit word, so adding one can wrap. */
  function Incremented(epoch: nat): nat {
    if epoch + 1 < U64 then epoch + 1 else 0
  }

  /** The start of the first epoch above `epoch`, or -1. */
  function CachedEnd(c: Cache, epoch: nat): int {
    match FindEpoch(c, Incremented(epoch))
    case Some(e) => e.startOffset
    case None => -1
  }

  /** In an ordered cache the lookup splits the entries at the requested epoch. */
  lemma {:induction false} LookupSplits(c: Cache, epoch: nat)
    requires Ordered(c)
    ensures forall i :: 0 <= i < |c| ==> (c[i].leaderEpoch >= epoch <==> EpochIndex(c, epoch) <= i)
  {
  }

  /** The start of the first entry of a later epoch, or -1 if there is none. Above the greatest epoch a word can hold
      come all entries again. */
  ghost predicate EndsEpoch(c: Cache, epoch: nat, offset: int) {
    exists k :: 0 <= k <= |c| && offset == (if k < |c| then c[k].startOffset else -1) &&
                forall i :: 0 <= i < |c| ==> (k <= i <==> c[i].leaderEpoch > epoch || epoch + 1 >= U64)
  }

  lemma {:induction false} CachedEndIs(c: Cache, epoch: nat)
    requires Ordered(c)
    ensures EndsEpoch(c, epoch, CachedEnd(c, epoch))
  {
    var k := EpochIndex(c, Incremented(epoch));
    LookupSplits(c, Incremented(epoch));
    assert forall i :: 0 <= i < |c| ==> (k <= i <==> c[i].leaderEpoch > epoch || epoch + 1 >= U64);
  }

  // ---------------------------------------------------------------- updates, as functions of the entries

  function Assigned(c: Cache, epoch: nat, offset: int): Cache {
    if epoch > LatestEpoch(c) && offset >= LatestOffset(c) then c + [EpochOffset(epoch, offset)] else c
  }

  /** The entries that start before `offset`, in order. */
  function Before(c: Cache, offset: int): Cache {
    if c == [] then []
    else
      var n := |c| - 1;
      Before(c[..n], offset) + if c[n].startOffset < offset then [c[n]] else []
  }

  function ClearedLatest(c: Cache, offset: int): Cache {
    if offset > LatestOffset(c) then c else Before(c, offset)
  }

  function ClearedEarliest(c: Cache, offset: int): Cache {
    var earliest := Before(c, offset);
    if EarliestOffset(c) >= offset || earliest == [] || |earliest| > |c| then c
    else
      var rest := c[|earliest|..];
      if offset < EarliestOffset(rest) || rest == []
      then rest + [EpochOffset(earliest[|earliest| - 1].leaderEpoch, offset)]
      else rest
  }

  /** Assigns, one after the other, the entries whose epoch is above the latest one. */
  function AssignedAll(c: Cache, entries: Cache): Cache {
    if entries == [] then c
    else
      var n := |entries| - 1;
      var d := AssignedAll(c, entries[..n]);
      if entries[n].leaderEpoch > LatestEpoch(d) then Assigned(d, entries[n].leaderEpoch, entries[n].startOffset) else d
  }

  function RebaseIndex(from: Cache, offset: int): (k: nat)
    ensures k <= |from|
  {
    Search.Search(|from|, i requires 0 <= i < |from| => from[i].startOffset >= offset)
  }

  function Rebased(c: Cache, from: Cache, offset: int): Cache {
    AssignedAll(c, from[RebaseIndex(from, offset)..])
  }

  // ---------------------------------------------------------------- what the updates keep

  lemma {:induction false} AssignedKeepsOrder(c: Cache, epoch: nat, offset: int)
    requires Ordered(c)
    ensures Ordered(Assigned(c, epoch, offset))
  {
  }

  /** An entry of the other cache is taken over if it starts at or past the offset and follows what is there. */
  predicate TakenOver(c: Cache, e: EpochOffset) {
    e.leaderEpoch > LatestEpoch(c) && e.startOffset >= LatestOffset(c)
  }

  /** Entry `i` follows the one before it. */
  ghost predicate Rises(c: Cache, i: nat)
    requires 0 < i < |c|
  {
    c[i - 1].leaderEpoch < c[i].leaderEpoch && c[i - 1].startOffset <= c[i].startOffset
  }

  ghost predicate AllRise(c: Cache) {
    forall i :: 0 < i < |c| ==> Rises(c, i)
  }

  /** After taking over entries `k..n`, the next one follows if any was taken over or it is the first to follow. */
  lemma {:induction false} FollowsTaken(c: Cache, entries: Cache, k: nat, n: nat)
    requires k <= n < |entries| && (0 < n ==> Rises(entries, n))
    ensures TakenOver(c + entries[k..n], entries[n]) <==> k < n || TakenOver(c, entries[n])
  {
    assert k == n ==> c + entries[k..n] == c;
    assert k < n ==> entries[k..n][n - k - 1] == entries[n - 1];
  }

  lemma {:induction false} TakeNext(c: Cache, entries: Cache, k: nat, n: nat)
    requires k <= n < |entries| && (0 < n ==> Rises(entries, n)) && AssignedAll(c, entries[..n]) == c + entries[k..n]
    ensures AssignedAll(c, entries[..n + 1]) == if k < n || TakenOver(c, entries[n]) then c + entries[k..n + 1] else c
  {
    FollowsTaken(c, entries, k, n);
    assert entries[..n + 1][..n] == entries[..n];
    assert c + entries[k..n] + [entries[n]] == c + entries[k..n + 1];
    assert k == n ==> c + entries[k..n] == c;
  }

  /** Assigning the entries of an ordered cache adds exactly those that follow, which are its last ones. */
  lemma {:induction false} AssignedAllIs(c: Cache, entries: Cache, n: nat) returns (k: nat)
    requires AllRise(entries) && n <= |entries|
    ensures k <= n && AssignedAll(c, entries[..n]) == c + entries[k..n]
    ensures (k < n ==> TakenOver(c, entries[k])) && forall i :: 0 <= i < k ==> !TakenOver(c, entries[i])
  {
    if n == 0 {
      k := 0;
      assert c + [] == c;
    } else {
      k := AssignedAllIs(c, entries, n - 1);
      assert n > 1 ==> Rises(entries, n - 1);
      TakeNext(c, entries, k, n - 1);
      k := TakenUpTo(c, entries, k, n - 1);
    }
  }

  lemma {:induction false} TakenUpTo(c: Cache, entries: Cache, k: nat, n: nat) returns (j: nat)
    requires k <= n < |entries|
    requires (k < n ==> TakenOver(c, entries[k])) && forall i :: 0 <= i < k ==> !TakenOver(c, entries[i])
    ensures j <= n + 1 &&
            (if k < n || TakenOver(c, entries[n]) then j == k else j == n + 1 && c == c + entries[j..n + 1])
    ensures (j < n + 1 ==> TakenOver(c, entries[j])) && forall i :: 0 <= i < j ==> !TakenOver(c, entries[i])
  {
    j := if k < n || TakenOver(c, entries[n]) then k else n + 1;
  }

  lemma {:induction false} RebaseIndexIs(from: Cache, offset: int)
    requires Ordered(from)
    ensures forall i :: 0 <= i < |from| ==> (from[i].startOffset >= offset <==> RebaseIndex(from, offset) <= i)
  {
  }

  /** Rebasing keeps all entries and adds exactly the other cache's from the offset on that follow them. */
  lemma {:induction false} RebasedIs(c: Cache, from: Cache, offset: int) returns (k: nat)
    requires Ordered(from)
    ensures k <= |from| && Rebased(c, from, offset) == c + from[k..]
    ensures forall i :: 0 <= i < |from| ==> (from[i].startOffset >= offset && TakenOver(c, from[i]) <==> k <= i)
  {
    var b := RebaseIndex(from, offset);
    k := SuffixTaken(c, from, b);
    RebaseIndexIs(from, offset);
    TakenFrom(c, from, b, k);
  }

  lemma {:induction false} SuffixTaken(c: Cache, from: Cache, b: nat) returns (k: nat)
    requires Ordered(from) && b <= |from|
    ensures b <= k <= |from| && AssignedAll(c, from[b..]) == c + from[k..]
    ensures (k < |from| ==> TakenOver(c, from[k])) && forall i :: 0 <= i < k - b ==> !TakenOver(c, from[b..][i])
  {
    var rest := from[b..];
    assert forall i :: 0 < i < |rest| ==> Rises(rest, i);
    var j := AssignedAllIs(c, rest, |rest|);
    assert rest[..|rest|] == rest && rest[j..|rest|] == from[b + j..];
    k := b + j;
  }

  lemma {:induction false} TakenFrom(c: Cache, from: Cache, b: nat, k: nat)
    requires Ordered(from) && b <= k <= |from|
    requires k < |from| ==> TakenOver(c, from[k])
    requires forall i :: 0 <= i < k - b ==> !TakenOver(c, from[b..][i])
    ensures forall i :: b <= i < |from| ==> (TakenOver(c, from[i]) <==> k <= i)
  {
    assert forall i :: b <= i < k ==> from[i] == from[b..][i - b];
  }

  /** In an ordered cache the entries before an offset are a prefix. */
  lemma {:induction false} BeforeIsPrefix(c: Cache, offset: int)
    requires Ordered(c)
    ensures |Before(c, offset)| <= |c|
    ensures Before(c, offset) == c[..|Before(c, offset)|]
    ensures forall i :: 0 <= i < |c| ==> (c[i].startOffset < offset <==> i < |Before(c, offset)|)
  {
    if c == [] {
    } else {
      var n := |c| - 1;
      BeforeIsPrefix(c[..n], offset);
      PrefixGrows(c, c[..n], Before(c[..n], offset), offset);
    }
  }

  lemma {:induction false} PrefixGrows(c: Cache, init: Cache, b: Cache, offset: int)
    requires Ordered(c) && c != [] && init == c[..|c| - 1] && |b| <= |init| && b == c[..|b|]
    requires forall i :: 0 <= i < |init| ==> (init[i].startOffset < offset <==> i < |b|)
    ensures var d := b + if c[|c| - 1].startOffset < offset then [c[|c| - 1]] else [];
            && |d| <= |c| && d == c[..|d|]
            && forall i :: 0 <= i < |c| ==> (c[i].startOffset < offset <==> i < |d|)
  {
    var n := |c| - 1;
    assert forall i :: 0 <= i < n ==> init[i] == c[i];
    if c[n].startOffset < offset {
      assert n > 0 ==> c[n - 1].startOffset <= c[n].startOffset;
    }
  }

  /** Clearing the latest entries keeps exactly those that start before the offset. */
  lemma {:induction false} ClearedLatestKeeps(c: Cache, offset: int)
    requires Ordered(c)
    ensures var d := ClearedLatest(c, offset);
            Ordered(d) && d <= c && (forall i :: 0 <= i < |c| ==> (c[i].startOffset < offset <==> i < |d|))
  {
    BeforeIsPrefix(c, offset);
    var d := ClearedLatest(c, offset);
    forall i | 0 <= i < |c| ensures c[i].startOffset < offset <==> i < |d| {
      if offset > LatestOffset(c) { assert c[i].startOffset <= c[|c| - 1].startOffset; }
    }
  }

  lemma {:induction false} OrderedSuffix(c: Cache, k: nat)
    requires Ordered(c) && k <= |c|
    ensures Ordered(c[k..])
  {
  }

  /** The offset lies strictly inside an epoch that a later epoch follows. */
  ghost predicate CutsInside(c: Cache, offset: int) {
    && (exists i :: 0 <= i < |c| && c[i].startOffset < offset)
    && (exists i :: 0 <= i < |c| && c[i].startOffset > offset)
    && (forall i :: 0 <= i < |c| ==> c[i].startOffset != offset)
  }

  /** Where the entries before an offset end, and what cutting there means. */
  lemma {:induction false} CutPoint(c: Cache, offset: int) returns (k: nat)
    requires Ordered(c)
    ensures k <= |c| && k == |Before(c, offset)| && Before(c, offset) == c[..k]
    ensures forall i :: 0 <= i < |c| ==> (c[i].startOffset < offset <==> i < k)
    ensures CutsInside(c, offset) <==> 0 < k < |c| && c[k].startOffset > offset
  {
    BeforeIsPrefix(c, offset);
    k := |Before(c, offset)|;
    if 0 < k < |c| && c[k].startOffset > offset {
      assert c[0].startOffset < offset;
      forall i | 0 <= i < |c| ensures c[i].startOffset != offset {
        assert k < i ==> c[k].startOffset <= c[i].startOffset;
      }
    }
  }

  /** A cache after `offset` became the oldest one: every answer below it moves up to it. */
  ghost predicate RaisedTo(c: Cache, d: Cache, offset: int) {
    && Ordered(d)
    && LatestEpoch(d) == LatestEpoch(c)
    && forall epoch :: 0 <= epoch ==> Raised(FindEpoch(c, epoch), FindEpoch(d, epoch), offset)
  }

  ghost predicate Raised(a: Option<EpochOffset>, b: Option<EpochOffset>, offset: int) {
    if a.None? then b.None?
    else b.Some? && b.value.startOffset == if a.value.startOffset < offset then offset else a.value.startOffset
  }

  /** `ClearEarliest` does what it promises exactly when the offset does not cut inside an epoch before the last:
      there it puts the shortened epoch at the end of the slice. */
  lemma {:induction false} ClearEarliestRaises(c: Cache, offset: int)
    requires Ordered(c)
    ensures RaisedTo(c, ClearedEarliest(c, offset), offset) <==> !CutsInside(c, offset)
  {
    if CutsInside(c, offset) {
      var k := CutPoint(c, offset);
      ClearedByCut(c, offset, k);
      assert c[k - 1].leaderEpoch < c[k].leaderEpoch <= LatestEpoch(c);
    } else {
      var _ := ClearEarliestOrder(c, offset);
      forall epoch | 0 <= epoch
        ensures Raised(FindEpoch(c, epoch), FindEpoch(ClearedEarliest(c, offset), epoch), offset)
      {
        ClearEarliestLookup(c, offset, epoch);
      }
    }
  }

  lemma {:induction false} ClearedByCut(c: Cache, offset: int, k: nat)
    requires k <= |c| && Before(c, offset) == c[..k]
    requires 0 < |c| ==> (c[0].startOffset < offset <==> 0 < k)
    ensures 0 < k == |c| ==> ClearedEarliest(c, offset) == [EpochOffset(c[k - 1].leaderEpoch, offset)]
    ensures 0 < k < |c| && offset < c[k].startOffset ==>
            ClearedEarliest(c, offset) == c[k..] + [EpochOffset(c[k - 1].leaderEpoch, offset)]
    ensures (0 < k < |c| && offset >= c[k].startOffset) || k == 0 ==> ClearedEarliest(c, offset) == c[k..]
  {
  }

  lemma {:induction false} ClearEarliestOrder(c: Cache, offset: int) returns (k: nat)
    requires Ordered(c) && !CutsInside(c, offset)
    ensures k <= |c| && forall i :: 0 <= i < |c| ==> (c[i].startOffset < offset <==> i < k)
    ensures 0 < k < |c| ==> c[k].startOffset == offset
    ensures ClearedEarliest(c, offset) == if 0 < k == |c| then [EpochOffset(c[k - 1].leaderEpoch, offset)] else c[k..]
    ensures Ordered(ClearedEarliest(c, offset))
    ensures LatestEpoch(ClearedEarliest(c, offset)) == LatestEpoch(c)
  {
    k := CutPoint(c, offset);
    ClearedByCut(c, offset, k);
    OrderedSuffix(c, k);
  }

  lemma {:induction false} LookupInSuffix(c: Cache, k: nat, epoch: nat)
    requires Ordered(c) && k <= |c|
    ensures EpochIndex(c[k..], epoch) == var i := EpochIndex(c, epoch); if i < k then 0 else i - k
  {
    var d := c[k..];
    LookupSplits(c, epoch);
    var j := EpochIndex(d, epoch);
    assert j < |d| ==> d[j] == c[k + j];
    assert 0 < j ==> d[j - 1] == c[k + j - 1];
  }

  lemma {:induction false} LookupRaised(c: Cache, d: Cache, k: nat, offset: int, epoch: nat)
    requires Ordered(c) && k <= |c|
    requires forall i :: 0 <= i < |c| ==> (c[i].startOffset < offset <==> i < k)
    requires 0 < k < |c| ==> c[k].startOffset == offset
    requires d == if 0 < k == |c| then [EpochOffset(c[k - 1].leaderEpoch, offset)] else c[k..]
    ensures Raised(FindEpoch(c, epoch), FindEpoch(d, epoch), offset)
  {
    LookupSplits(c, epoch);
    if 0 < k == |c| {
      var j := EpochIndex(d, epoch);
      assert j <= 1;
    } else {
      LookupInSuffix(c, k, epoch);
    }
  }

  lemma {:induction false} ClearEarliestLookup(c: Cache, offset: int, epoch: nat)
    requires Ordered(c) && !CutsInside(c, offset)
    ensures Raised(FindEpoch(c, epoch), FindEpoch(ClearedEarliest(c, offset), epoch), offset)
  {
    var k := ClearEarliestOrder(c, offset);
    LookupRaised(c, ClearedEarliest(c, offset), k, offset, epoch);
  }

  /** A cut inside an epoch: the cache forgets that epoch 2 began and calls 1 the latest. */
  lemma {:induction false} ClearEarliestLosesLatestEpoch()
    ensures var c := [EpochOffset(1, 0), EpochOffset(2, 10)];
            Ordered(c) && ClearedEarliest(c, 5) == [EpochOffset(2, 10), EpochOffset(1, 5)]
  {
    var c := [EpochOffset(1, 0), EpochOffset(2, 10)];
    var k := CutPoint(c, 5);
    ClearedByCut(c, 5, k);
  }

  // ---------------------------------------------------------------- the object

  class LeaderEpochCache {
    var epochOffsets: Cache

    constructor ()
      ensures epochOffsets == []
    {
      epochOffsets := [];
    }

    method Assign(epoch: nat, offset: int)
      modifies this
      ensures epochOffsets == Assigned(old(epochOffsets), epoch, offset)
      ensures old(Ordered(epochOffsets)) ==> Ordered(epochOffsets)
    {
      var latestEpoch, latestOffset := LatestEpoch(epochOffsets), LatestOffset(epochOffsets);
      if epoch > latestEpoch && offset >= latestOffset {
        epochOffsets := epochOffsets + [EpochOffset(epoch, offset)];
      }
    }

    method ClearLatest(offset: int)
      modifies this
      ensures epochOffsets == ClearedLatest(old(epochOffsets), offset)
      ensures old(Ordered(epochOffsets)) ==> Ordered(epochOffsets)
    {
      ghost var c := epochOffsets;
      if Ordered(c) { ClearedLatestKeeps(c, offset); }
      if offset > LatestOffset(epochOffsets) {
        return;
      }
      var filtered: Cache := [];
      for i := 0 to |epochOffsets|
        invariant filtered == Before(epochOffsets[..i], offset)
        invariant epochOffsets == c
      {
        assert epochOffsets[..i + 1][..i] == epochOffsets[..i];
        if epochOffsets[i].startOffset < offset {
          filtered := filtered + [epochOffsets[i]];
        }
      }
      assert c[..|c|] == c;
      epochOffsets := filtered;
    }

    method ClearEarliest(offset: int)
      modifies this
      ensures epochOffsets == ClearedEarliest(old(epochOffsets), offset)
    {
      if EarliestOffset(epochOffsets) >= offset {
        return;
      }
      var earliest: Cache := [];
      var removed: nat := 0;
      ghost var c := epochOffsets;
      for i := 0 to |epochOffsets|
        invariant earliest == Before(epochOffsets[..i], offset) && removed == |earliest| <= i
        invariant epochOffsets == c
      {
        assert epochOffsets[..i + 1][..i] == epochOffsets[..i];
        if epochOffsets[i].startOffset < offset {
          earliest := earliest + [epochOffsets[i]];
          removed := removed + 1;
        }
      }
      assert c[..|c|] == c;
      if |earliest| == 0 {
        return;
      }
      epochOffsets := epochOffsets[removed..];
      if offset < EarliestOffset(epochOffsets) || |epochOffsets| == 0 {
        epochOffsets := epochOffsets + [EpochOffset(earliest[|earliest| - 1].leaderEpoch, offset)];
      }
    }

    method Rebase(from: LeaderEpochCache, offset: int)
      requires from != this
      modifies this
      ensures epochOffsets == Rebased(old(epochOffsets), from.epochOffsets, offset)
      ensures old(Ordered(epochOffsets)) ==> Ordered(epochOffsets)
    {
      var entries := from.epochOffsets[RebaseIndex(from.epochOffsets, offset)..];
      for i := 0 to |entries|
        invariant epochOffsets == AssignedAll(old(epochOffsets), entries[..i])
        invariant old(Ordered(epochOffsets)) ==> Ordered(epochOffsets)
      {
        assert entries[..i + 1][..i] == entries[..i];
        if entries[i].leaderEpoch > LatestEpoch(epochOffsets) {
          Assign(entries[i].leaderEpoch, entries[i].startOffset);
        }
      }
      assert entries[..|entries|] == entries;
    }

    method Replace(from: LeaderEpochCache)
      modifies this
      ensures epochOffsets == old(from.epochOffsets)
    {
      epochOffsets := from.epochOffsets;
    }

    method LastOffsetForLeaderEpoch(epoch: nat) returns (offset: int)
      ensures offset == CachedEnd(epochOffsets, epoch)
      ensures Ordered(epochOffsets) ==> EndsEpoch(epochOffsets, epoch, offset)
    {
      if Ordered(epochOffsets) {
        CachedEndIs(epochOffsets, epoch);
      }
      var e := FindEpoch(epochOffsets, Incremented(epoch));
      offset := if e.None? then -1 else e.value.startOffset;
    }
  }
}

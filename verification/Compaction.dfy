/** Log compaction: rewriting the sealed segments so that, up to the high watermark, each key keeps its last message. */
module Compaction {
  import opened Search
  import opened Sequences
  import opened EpochCache
  import opened KeyScan
  import EpochFence

  datatype KeyedSegment = KeyedSegment(baseOffset: int, recs: seq<Rec>)

  function Parts(segs: seq<KeyedSegment>): (ps: seq<seq<Rec>>)
    ensures |ps| == |segs| && forall i :: 0 <= i < |segs| ==> ps[i] == segs[i].recs
  {
    seq(|segs|, i requires 0 <= i < |segs| => segs[i].recs)
  }

  function All(segs: seq<KeyedSegment>): seq<Rec> {
    Flat(Parts(segs))
  }

  lemma {:induction false} AllAppends(segs: seq<KeyedSegment>, s: KeyedSegment)
    ensures All(segs + [s]) == All(segs) + s.recs
  {
    var ps := Parts(segs + [s]);
    assert ps[..|ps| - 1] == Parts(segs);
  }

  // ---------------------------------------------------------------- compaction as a function

  /** Keyless messages, the last message of each key, and everything from the high watermark on. */
  predicate Keeps(latest: map<string, int>, hw: int, r: Rec) {
    var latestOffset := if Slot(r) in latest then latest[Slot(r)] else 0;
    r.key.None? || r.offset == latestOffset || r.offset >= hw
  }

  function Kept(recs: seq<Rec>, latest: map<string, int>, hw: int): seq<Rec> {
    if recs == [] then []
    else
      var n := |recs| - 1;
      Kept(recs[..n], latest, hw) + if Keeps(latest, hw, recs[n]) then [recs[n]] else []
  }

  /** Each segment with its kept messages, dropped if none are left. */
  function Cleaned(segs: seq<KeyedSegment>, latest: map<string, int>, hw: int): seq<KeyedSegment> {
    if segs == [] then []
    else
      var n := |segs| - 1;
      var kept := Kept(segs[n].recs, latest, hw);
      Cleaned(segs[..n], latest, hw) + if kept == [] then [] else [KeyedSegment(segs[n].baseOffset, kept)]
  }

  function Compacted(segs: seq<KeyedSegment>, hw: int): seq<KeyedSegment> {
    if |segs| <= 1 then segs
    else
      var n := |segs| - 1;
      Cleaned(segs[..n], Latest(All(segs), hw), hw) + [segs[n]]
  }

  function CacheOver(c: Cache, recs: seq<Rec>): Cache {
    if recs == [] then c
    else
      var n := |recs| - 1;
      EpochFence.CacheAfterAppend(CacheOver(c, recs[..n]), recs[n].leaderEpoch, recs[n].offset)
  }

  // ---------------------------------------------------------------- what is kept

  lemma {:induction false} KeptIn(recs: seq<Rec>, latest: map<string, int>, hw: int, r: Rec)
    ensures r in Kept(recs, latest, hw) <==> r in recs && Keeps(latest, hw, r)
  {
    if recs == [] {
    } else {
      var n := |recs| - 1;
      KeptIn(recs[..n], latest, hw, r);
      assert recs == recs[..n] + [recs[n]];
    }
  }

  lemma {:induction false} KeptConcat(a: seq<Rec>, b: seq<Rec>, latest: map<string, int>, hw: int)
    ensures Kept(a + b, latest, hw) == Kept(a, latest, hw) + Kept(b, latest, hw)
  {
    if b == [] {
      assert a + b == a;
    } else {
      var n := |b| - 1;
      assert (a + b)[..|a| + n] == a + b[..n];
      KeptConcat(a, b[..n], latest, hw);
    }
  }

  lemma {:induction false} KeptAgain(recs: seq<Rec>, latest: map<string, int>, hw: int)
    ensures Kept(Kept(recs, latest, hw), latest, hw) == Kept(recs, latest, hw)
  {
    if recs == [] {
    } else {
      var n := |recs| - 1;
      KeptAgain(recs[..n], latest, hw);
      var k := Kept(recs[..n], latest, hw);
      assert k + [] == k;
      if Keeps(latest, hw, recs[n]) {
        assert (k + [recs[n]])[..|k|] == k;
      }
    }
  }

  lemma {:induction false} CleanedAll(segs: seq<KeyedSegment>, latest: map<string, int>, hw: int)
    ensures All(Cleaned(segs, latest, hw)) == Kept(All(segs), latest, hw)
  {
    if segs == [] {
    } else {
      var n := |segs| - 1;
      var c, kept := Cleaned(segs[..n], latest, hw), Kept(segs[n].recs, latest, hw);
      CleanedAll(segs[..n], latest, hw);
      assert segs == segs[..n] + [segs[n]];
      AllAppends(segs[..n], segs[n]);
      KeptConcat(All(segs[..n]), segs[n].recs, latest, hw);
      assert c + [] == c && All(c) + [] == All(c);
      if kept != [] {
        AllAppends(c, KeyedSegment(segs[n].baseOffset, kept));
      }
    }
  }

  /** The messages left are those kept of the sealed segments, in their order, then the whole last segment. */
  lemma {:induction false} CompactedAll(segs: seq<KeyedSegment>, hw: int)
    requires |segs| > 1
    ensures var n := |segs| - 1;
            && All(segs) == All(segs[..n]) + segs[n].recs
            && All(Compacted(segs, hw)) == Kept(All(segs[..n]), Latest(All(segs), hw), hw) + segs[n].recs
  {
    var n := |segs| - 1;
    var latest := Latest(All(segs), hw);
    assert segs == segs[..n] + [segs[n]];
    AllAppends(segs[..n], segs[n]);
    CleanedAll(segs[..n], latest, hw);
    AllAppends(Cleaned(segs[..n], latest, hw), segs[n]);
  }

  ghost predicate Sorted(recs: seq<Rec>) {
    forall i, j :: 0 <= i < j < |recs| ==> recs[i].offset < recs[j].offset
  }

  lemma {:induction false} KeptSorted(recs: seq<Rec>, latest: map<string, int>, hw: int)
    requires Sorted(recs)
    ensures Sorted(Kept(recs, latest, hw))
  {
    if recs == [] {
    } else {
      var n := |recs| - 1;
      KeptSorted(recs[..n], latest, hw);
      var k := Kept(recs[..n], latest, hw);
      forall i | 0 <= i < |k| ensures k[i].offset < recs[n].offset {
        KeptIn(recs[..n], latest, hw, k[i]);
      }
    }
  }

  lemma {:induction false} SortedHalves(a: seq<Rec>, b: seq<Rec>)
    ensures Sorted(a + b) <==> Sorted(a) && Sorted(b) && forall x, y :: x in a && y in b ==> x.offset < y.offset
  {
    var c := a + b;
    if Sorted(c) {
      assert forall i :: 0 <= i < |a| ==> a[i] == c[i];
      assert forall j :: 0 <= j < |b| ==> b[j] == c[|a| + j];
    }
  }

  lemma {:induction false} CompactedSorted(segs: seq<KeyedSegment>, hw: int)
    requires |segs| > 1 && Sorted(All(segs))
    ensures Sorted(All(Compacted(segs, hw)))
  {
    var sealed, last, latest := All(segs[..|segs| - 1]), segs[|segs| - 1].recs, Latest(All(segs), hw);
    CompactedAll(segs, hw);
    SortedHalves(sealed, last);
    KeptSorted(sealed, latest, hw);
    forall x | x in Kept(sealed, latest, hw) ensures x in sealed {
      KeptIn(sealed, latest, hw, x);
    }
    SortedHalves(Kept(sealed, latest, hw), last);
  }

  /** A message survives exactly if it is in the last segment, has no key, is at or after the high watermark, or is the
      last one of its slot; and the survivors stay in offset order. */
  lemma {:induction false} CompactionRetains(segs: seq<KeyedSegment>, hw: int, r: Rec)
    requires |segs| > 1 && Sorted(All(segs))
    ensures Sorted(All(Compacted(segs, hw)))
    ensures r in All(Compacted(segs, hw)) <==>
            r in All(segs) && (r in segs[|segs| - 1].recs || r.key.None? || r.offset >= hw ||
                IsLastOfSlot(All(segs), hw, r))
  {
    CompactedSorted(segs, hw);
    CompactedAll(segs, hw);
    KeptIn(All(segs[..|segs| - 1]), Latest(All(segs), hw), hw, r);
    LatestIsLatest(All(segs), hw);
  }

  predicate IsLastOfSlot(recs: seq<Rec>, hw: int, r: Rec) {
    Slot(r) in Latest(recs, hw) && r.offset == Latest(recs, hw)[Slot(r)]
  }

  // ---------------------------------------------------------------- the segments

  /** Segment `i` of one list comes from segment `from[i]` of the other, in order and with the same base offset. */
  ghost predicate ComesFrom(after: seq<KeyedSegment>, segs: seq<KeyedSegment>, from: seq<nat>) {
    && |from| == |after| && (forall i, j :: 0 <= i < j < |from| ==> from[i] < from[j])
    && forall i :: 0 <= i < |from| ==> from[i] < |segs| && after[i].baseOffset == segs[from[i]].baseOffset
  }

  ghost predicate Ascending(from: seq<nat>) {
    forall i, j :: 0 <= i < j < |from| ==> from[i] < from[j]
  }

  /** The segment has the base offset of segment `k` and what is kept of it. */
  predicate KeptAt(s: KeyedSegment, segs: seq<KeyedSegment>, k: nat, latest: map<string, int>, hw: int) {
    k < |segs| && s.baseOffset == segs[k].baseOffset && s.recs == Kept(segs[k].recs, latest, hw) != []
  }

  predicate AnyKept(segs: seq<KeyedSegment>, k: nat, latest: map<string, int>, hw: int) {
    k < |segs| && Kept(segs[k].recs, latest, hw) != []
  }

  lemma {:induction false} CleanedFrom(segs: seq<KeyedSegment>, latest: map<string, int>, hw: int)
      returns (from: seq<nat>)
    ensures var after := Cleaned(segs, latest, hw);
            && Ascending(from) && |from| == |after|
            && (forall i :: 0 <= i < |after| ==> KeptAt(after[i], segs, from[i], latest, hw))
            && forall k: nat :: AnyKept(segs, k, latest, hw) ==> k in from
  {
    if segs == [] {
      from := [];
    } else {
      var n := |segs| - 1;
      var init, last, before := segs[..n], segs[n], Cleaned(segs[..n], latest, hw);
      from := CleanedFrom(init, latest, hw);
      forall i | 0 <= i < |before| ensures KeptAt(before[i], segs, from[i], latest, hw) {
        assert KeptAt(before[i], init, from[i], latest, hw);
      }
      forall k: nat | k < n && AnyKept(segs, k, latest, hw) ensures k in from {
        assert AnyKept(init, k, latest, hw);
      }
      assert forall i :: 0 <= i < |from| ==> KeptAt(before[i], init, from[i], latest, hw);
      if AnyKept(segs, n, latest, hw) {
        assert KeptAt(KeyedSegment(last.baseOffset, Kept(last.recs, latest, hw)), segs, n, latest, hw);
        from := from + [n];
      }
    }
  }

  ghost predicate Survives(segs: seq<KeyedSegment>, hw: int, r: Rec) {
    r.key.None? || r.offset >= hw || IsLastOfSlot(All(segs), hw, r)
  }

  /** The segment holds what survives of the other. */
  ghost predicate Remains(after: KeyedSegment, segs: seq<KeyedSegment>, k: nat, hw: int)
    requires k < |segs|
  {
    && (Sorted(segs[k].recs) ==> Sorted(after.recs))
    && forall r :: r in after.recs <==> r in segs[k].recs && (k == |segs| - 1 || Survives(segs, hw, r))
  }

  lemma {:induction false} KeptRemains(segs: seq<KeyedSegment>, k: nat, hw: int, base: int)
    requires k < |segs| - 1
    ensures Remains(KeyedSegment(base, Kept(segs[k].recs, Latest(All(segs), hw), hw)), segs, k, hw)
  {
    var recs, latest := segs[k].recs, Latest(All(segs), hw);
    if Sorted(recs) {
      KeptSorted(recs, latest, hw);
    }
    forall r ensures r in Kept(recs, latest, hw) <==> r in recs && Survives(segs, hw, r) {
      KeptIn(recs, latest, hw, r);
      if r in recs {
        InAll(segs, k, r);
        LatestIsLatest(All(segs), hw);
      }
    }
  }

  lemma {:induction false} InAll(segs: seq<KeyedSegment>, k: nat, r: Rec)
    requires k < |segs| && r in segs[k].recs
    ensures r in All(segs)
  {
    var n := |segs| - 1;
    assert segs == segs[..n] + [segs[n]];
    AllAppends(segs[..n], segs[n]);
    if k < n {
      InAll(segs[..n], k, r);
    }
  }

  /**
   * Each segment left comes from one that was there, in order and with its base offset, and holds exactly what survives
   * of it. None but the last is empty, and one that is gone had no survivors.
   */
  lemma {:induction false} CompactionKeepsSegments(segs: seq<KeyedSegment>, hw: int) returns (from: seq<nat>)
    requires |segs| > 1
    ensures var after := Compacted(segs, hw);
            && after != [] && after[|after| - 1] == segs[|segs| - 1] && ComesFrom(after, segs, from)
            && (forall i :: 0 <= i < |after| ==> Remains(after[i], segs, from[i], hw))
            && (forall i :: 0 <= i < |after| - 1 ==> after[i].recs != [])
            && forall k, r :: 0 <= k < |segs| && r in segs[k].recs && Survives(segs, hw, r) ==> k in from
  {
    var before := SealedFrom(segs, hw);
    from := before + [|segs| - 1];
    SealedComesFrom(segs, hw, before);
    SealedRemains(segs, hw, before);
    forall k, r | 0 <= k < |segs| && r in segs[k].recs && Survives(segs, hw, r) ensures k in from {
      if k < |segs| - 1 {
        SurvivorKeeps(segs, hw, k, r);
      }
    }
  }

  ghost predicate Sealed(segs: seq<KeyedSegment>, hw: int, from: seq<nat>)
    requires |segs| > 1
  {
    var sealed, latest, after := segs[..|segs| - 1], Latest(All(segs), hw), Compacted(segs, hw);
    && Ascending(from) && |from| + 1 == |after|
    && (forall i :: 0 <= i < |from| ==> KeptAt(after[i], sealed, from[i], latest, hw))
    && forall k: nat :: AnyKept(sealed, k, latest, hw) ==> k in from
  }

  lemma {:induction false} SealedFrom(segs: seq<KeyedSegment>, hw: int) returns (from: seq<nat>)
    requires |segs| > 1
    ensures Sealed(segs, hw, from)
  {
    from := CleanedFrom(segs[..|segs| - 1], Latest(All(segs), hw), hw);
  }

  lemma {:induction false} SealedComesFrom(segs: seq<KeyedSegment>, hw: int, from: seq<nat>)
    requires |segs| > 1 && Sealed(segs, hw, from)
    ensures ComesFrom(Compacted(segs, hw), segs, from + [|segs| - 1])
    ensures forall i :: 0 <= i < |Compacted(segs, hw)| - 1 ==> Compacted(segs, hw)[i].recs != []
  {
    var sealed, latest, after := segs[..|segs| - 1], Latest(All(segs), hw), Compacted(segs, hw);
    assert forall i :: 0 <= i < |from| ==> KeptAt(after[i], sealed, from[i], latest, hw);
  }

  lemma {:induction false} SealedRemains(segs: seq<KeyedSegment>, hw: int, from: seq<nat>)
    requires |segs| > 1 && Sealed(segs, hw, from)
    ensures var after, all := Compacted(segs, hw), from + [|segs| - 1];
            forall i :: 0 <= i < |after| ==> all[i] < |segs| && Remains(after[i], segs, all[i], hw)
  {
    var sealed, latest, after := segs[..|segs| - 1], Latest(All(segs), hw), Compacted(segs, hw);
    forall i | 0 <= i < |from| ensures from[i] < |segs| && Remains(after[i], segs, from[i], hw) {
      assert KeptAt(after[i], sealed, from[i], latest, hw);
      KeptRemains(segs, from[i], hw, after[i].baseOffset);
    }
    LastRemains(segs, hw);
  }

  lemma {:induction false} LastRemains(segs: seq<KeyedSegment>, hw: int)
    requires segs != []
    ensures Remains(segs[|segs| - 1], segs, |segs| - 1, hw)
  {
  }

  lemma {:induction false} SurvivorKeeps(segs: seq<KeyedSegment>, hw: int, k: nat, r: Rec)
    requires k < |segs| - 1 && r in segs[k].recs && Survives(segs, hw, r)
    ensures AnyKept(segs[..|segs| - 1], k, Latest(All(segs), hw), hw)
  {
    KeptRemains(segs, k, hw, 0);
    assert r in Kept(segs[k].recs, Latest(All(segs), hw), hw);
  }

  /** Base offsets rise, and each message lies between the base offset of its segment and the next. */
  ghost predicate Placed(segs: seq<KeyedSegment>) {
    && (forall i, j :: 0 <= i < j < |segs| ==> segs[i].baseOffset < segs[j].baseOffset)
    && (forall i, r :: 0 <= i < |segs| && r in segs[i].recs ==> segs[i].baseOffset <= r.offset)
    && forall i, j, r :: 0 <= i < j < |segs| && r in segs[i].recs ==> r.offset < segs[j].baseOffset
  }

  lemma {:induction false} CompactionKeepsPlaces(segs: seq<KeyedSegment>, hw: int)
    requires Placed(segs)
    ensures Placed(Compacted(segs, hw))
  {
    if |segs| > 1 {
      var after := Compacted(segs, hw);
      var from := CompactionKeepsSegments(segs, hw);
      forall i | 0 <= i < |after| ensures PartOf(after[i], segs[from[i]]) {
        assert Remains(after[i], segs, from[i], hw);
      }
      PlacedFrom(after, segs, from);
    }
  }

  ghost predicate PartOf(a: KeyedSegment, b: KeyedSegment) {
    a.baseOffset == b.baseOffset && forall r :: r in a.recs ==> r in b.recs
  }

  lemma {:induction false} PlacedFrom(after: seq<KeyedSegment>, segs: seq<KeyedSegment>, from: seq<nat>)
    requires Placed(segs) && ComesFrom(after, segs, from)
    requires forall i :: 0 <= i < |after| ==> PartOf(after[i], segs[from[i]])
    ensures Placed(after)
  {
    forall i, r | 0 <= i < |after| && r in after[i].recs ensures after[i].baseOffset <= r.offset {
      assert PartOf(after[i], segs[from[i]]);
    }
    forall i, j, r | 0 <= i < j < |after| && r in after[i].recs ensures r.offset < after[j].baseOffset {
      assert PartOf(after[i], segs[from[i]]) && from[i] < from[j];
    }
  }

  // ---------------------------------------------------------------- the view by key

  /** The last message with this key at or below an offset: what a reader that keeps one value per key ends up with. */
  function LastFor(recs: seq<Rec>, key: string, h: int): Option<Rec> {
    if recs == [] then None
    else
      var n := |recs| - 1;
      if recs[n].key == Some(key) && recs[n].offset <= h then Some(recs[n]) else LastFor(recs[..n], key, h)
  }

  lemma {:induction false} LastForSpec(recs: seq<Rec>, key: string, h: int)
    requires Sorted(recs)
    ensures var e := LastFor(recs, key, h);
            && (e.Some? ==> e.value in recs && e.value.key == Some(key) && e.value.offset <= h)
            && forall r :: r in recs && r.key == Some(key) && r.offset <= h ==> e.Some? && r.offset <= e.value.offset
  {
    if recs == [] {
    } else {
      var n := |recs| - 1;
      LastForSpec(recs[..n], key, h);
      assert recs == recs[..n] + [recs[n]];
      forall r | r in recs ensures r.offset <= recs[n].offset {
        var i :| 0 <= i < |recs| && recs[i] == r;
      }
    }
  }

  /** The last message with the empty key is hidden by a later one without a key, which shares its slot. */
  ghost predicate Shadowed(segs: seq<KeyedSegment>, hw: int, key: string)
    requires |segs| > 1
  {
    && key == ""
    && exists e, n :: Hides(segs, hw, key, e, n)
  }

  ghost predicate Hides(segs: seq<KeyedSegment>, hw: int, key: string, e: Rec, n: Rec)
    requires |segs| > 1
  {
    && e in All(segs[..|segs| - 1]) && LastFor(All(segs), key, hw) == Some(e)
    && n in All(segs) && n.key.None? && e.offset < n.offset <= hw
  }

  lemma {:induction false} SortedUnique(recs: seq<Rec>, a: Rec, b: Rec)
    requires Sorted(recs) && a in recs && b in recs && a.offset == b.offset
    ensures a == b
  {
  }

  lemma {:induction false} LastKept(segs: seq<KeyedSegment>, hw: int, key: string, h: int)
    requires |segs| > 1 && Sorted(All(segs)) && h >= hw && !Shadowed(segs, hw, key)
    requires LastFor(All(segs), key, h).Some?
    ensures LastFor(All(segs), key, h).value in All(Compacted(segs, hw))
  {
    var all, n := All(segs), |segs| - 1;
    var latest := Latest(all, hw);
    LastForSpec(all, key, h);
    LastForSpec(all, key, hw);
    LatestIsLatest(all, hw);
    CompactedAll(segs, hw);
    var e := LastFor(all, key, h).value;
    KeptIn(All(segs[..n]), latest, hw, e);
    if e !in segs[n].recs && e.offset < hw {
      var f := LastFor(all, key, hw).value;
      SortedUnique(all, e, f);
      var r :| r in all && r.offset == latest[key] && Slot(r) == key;
      assert e.offset <= r.offset <= hw;
      if r.offset != e.offset {
        assert Hides(segs, hw, key, e, r);
      }
    }
  }

  lemma {:induction false} SubsequenceView(all: seq<Rec>, some: seq<Rec>, key: string, h: int)
    requires Sorted(all) && Sorted(some) && forall r :: r in some ==> r in all
    requires var e := LastFor(all, key, h); e.Some? ==> e.value in some
    ensures LastFor(some, key, h) == LastFor(all, key, h)
  {
    LastForSpec(all, key, h);
    LastForSpec(some, key, h);
    var e, f := LastFor(all, key, h), LastFor(some, key, h);
    if e.Some? {
      SortedUnique(all, e.value, f.value);
    }
  }

  /** For every offset from the high watermark on, the last message of a key is the same before and after compaction,
      exactly unless the key is empty and its last message is hidden by a keyless one. */
  lemma {:induction false} CompactionKeepsView(segs: seq<KeyedSegment>, hw: int, key: string)
    requires |segs| > 1 && Sorted(All(segs))
    ensures (forall h :: h >= hw ==> LastFor(All(Compacted(segs, hw)), key, h) == LastFor(All(segs), key, h)) <==>
            !Shadowed(segs, hw, key)
  {
    var all, some := All(segs), All(Compacted(segs, hw));
    forall r ensures r in some ==> r in all {
      CompactionRetains(segs, hw, r);
    }
    assert Sorted(some) by { CompactionRetains(segs, hw, Rec(0, None, "", 0)); }
    if Shadowed(segs, hw, key) {
      ShadowedIsLost(segs, hw, key);
    } else {
      forall h | h >= hw ensures LastFor(some, key, h) == LastFor(all, key, h) {
        if LastFor(all, key, h).Some? { LastKept(segs, hw, key, h); }
        SubsequenceView(all, some, key, h);
      }
    }
  }

  lemma {:induction false} ShadowedIsLost(segs: seq<KeyedSegment>, hw: int, key: string)
    requires |segs| > 1 && Sorted(All(segs)) && Shadowed(segs, hw, key)
    ensures LastFor(All(Compacted(segs, hw)), key, hw) != LastFor(All(segs), key, hw)
  {
    var all, some := All(segs), All(Compacted(segs, hw));
    var n := |segs| - 1;
    var e, nil :| Hides(segs, hw, key, e, nil);
    CompactedAll(segs, hw);
    SortedHalves(All(segs[..n]), segs[n].recs);
    LastForSpec(all, key, hw);
    LatestIsLatest(all, hw);
    CompactionRetains(segs, hw, e);
    assert e !in some;
    LastForSpec(some, key, hw);
  }

  // ---------------------------------------------------------------- compacting twice

  lemma {:induction false} LatestAfterCompaction(segs: seq<KeyedSegment>, hw: int)
    requires |segs| > 1 && Sorted(All(segs))
    ensures Latest(All(Compacted(segs, hw)), hw) == Latest(All(segs), hw)
  {
    var all, some := All(segs), All(Compacted(segs, hw));
    var latest := Latest(all, hw);
    LatestIsLatest(all, hw);
    forall k | k in latest ensures exists r :: r in some && r.offset == latest[k] <= hw && Slot(r) == k {
      var r :| r in all && r.offset == latest[k] <= hw && Slot(r) == k;
      CompactionRetains(segs, hw, r);
    }
    forall r | r in some ensures r in all {
      CompactionRetains(segs, hw, r);
    }
    LatestIsLatest(some, hw);
    LatestIsUnique(Latest(some, hw), latest, some, hw);
  }

  lemma {:induction false} CleanedAgain(segs: seq<KeyedSegment>, latest: map<string, int>, hw: int)
    ensures Cleaned(Cleaned(segs, latest, hw), latest, hw) == Cleaned(segs, latest, hw)
  {
    if segs == [] {
    } else {
      var n := |segs| - 1;
      CleanedAgain(segs[..n], latest, hw);
      KeptAgain(segs[n].recs, latest, hw);
      var c, kept := Cleaned(segs[..n], latest, hw), Kept(segs[n].recs, latest, hw);
      assert c + [] == c;
      if kept != [] {
        var s := KeyedSegment(segs[n].baseOffset, kept);
        assert (c + [s])[..|c|] == c;
      }
    }
  }

  /** Compacting again at the same high watermark changes nothing. */
  lemma {:induction false} CompactionIsIdempotent(segs: seq<KeyedSegment>, hw: int)
    requires Sorted(All(segs))
    ensures Compacted(Compacted(segs, hw), hw) == Compacted(segs, hw)
  {
    if |segs| > 1 {
      var n := |segs| - 1;
      var latest := Latest(All(segs), hw);
      var c := Cleaned(segs[..n], latest, hw);
      LatestAfterCompaction(segs, hw);
      CleanedAgain(segs[..n], latest, hw);
      assert (c + [segs[n]])[..|c|] == c;
    }
  }

  /** The exception is real: a message with an empty key, then one without a key. */
  lemma {:induction false} EmptyKeyCanBeLost() returns (segs: seq<KeyedSegment>)
    ensures |segs| > 1 && Sorted(All(segs))
    ensures LastFor(All(Compacted(segs, 2)), "", 2) != LastFor(All(segs), "", 2)
  {
    var e, n, x := Rec(0, Some(""), "v", 1), Rec(1, None, "w", 1), Rec(2, None, "x", 1);
    var a, b := KeyedSegment(0, [e, n]), KeyedSegment(2, [x]);
    segs := [a, b];
    AllAppends([], a);
    AllAppends([a], b);
    assert [] + [a] == [a] && [a] + [b] == segs && segs[..1] == [a];
    assert All(segs) == [e, n, x];
    assert [e, n, x][..2] == [e, n] && [e, n][..1] == [e];
    assert LastFor([e], "", 2) == Some(e);
    assert Hides(segs, 2, "", e, n);
    ShadowedIsLost(segs, 2, "");
  }

  // ---------------------------------------------------------------- the rebuilt epoch cache

  ghost predicate EpochsRise(recs: seq<Rec>) {
    forall x, y :: x in recs && y in recs && x.offset < y.offset ==> x.leaderEpoch <= y.leaderEpoch
  }

  /** Record `i` is the first of its epoch. */
  ghost predicate Begins(recs: seq<Rec>, i: int, epoch: nat) {
    0 <= i < |recs| && recs[i].leaderEpoch == epoch && forall j :: 0 <= j < i ==> recs[j].leaderEpoch < epoch
  }

  /** The cache lists each epoch of the records once, in order, with the offset of its first record. */
  ghost predicate Lists(c: Cache, recs: seq<Rec>) {
    && Ordered(c)
    && (forall k :: 0 <= k < |c| ==> Starts(c, k, recs))
    && (forall i :: 0 <= i < |recs| && recs[i].leaderEpoch > 0 ==> Mentions(c, recs[i].leaderEpoch))
  }

  lemma {:induction false} CacheLatest(recs: seq<Rec>)
    requires Sorted(recs) && EpochsRise(recs) && forall r :: r in recs ==> r.offset >= 0
    ensures recs == [] ==> CacheOver([], recs) == []
    ensures recs != [] ==>
            LatestEpoch(CacheOver([], recs)) == recs[|recs| - 1].leaderEpoch &&
            LatestOffset(CacheOver([], recs)) <= recs[|recs| - 1].offset
  {
    if recs == [] {
    } else {
      SplitLast(recs);
      CacheLatest(recs[..|recs| - 1]);
    }
  }

  lemma {:induction false} CacheLists(recs: seq<Rec>)
    requires Sorted(recs) && EpochsRise(recs) && forall r :: r in recs ==> r.offset >= 0
    ensures Lists(CacheOver([], recs), recs)
  {
    if recs == [] {
    } else {
      var n := |recs| - 1;
      var init := recs[..n];
      SplitLast(recs);
      CacheLists(init);
      CacheLatest(init);
      CacheCovers(init);
      CacheGrows(init, recs[n], CacheOver([], init));
    }
  }

  lemma {:induction false} CacheCovers(recs: seq<Rec>)
    requires Sorted(recs) && EpochsRise(recs)
    ensures forall i :: 0 <= i < |recs| ==> recs[i].leaderEpoch <= recs[|recs| - 1].leaderEpoch
  {
  }

  lemma {:induction false} SplitLast(recs: seq<Rec>)
    requires recs != [] && Sorted(recs) && EpochsRise(recs) && forall r :: r in recs ==> r.offset >= 0
    ensures var n := |recs| - 1; var init := recs[..n];
            && recs == init + [recs[n]] && recs[n].offset >= 0
            && Sorted(init) && EpochsRise(init) && (forall r :: r in init ==> r.offset >= 0)
            && forall i :: 0 <= i < n ==> init[i].leaderEpoch <= recs[n].leaderEpoch && init[i].offset < recs[n].offset
  {
  }

  /** Entry `k` starts at the first record of its epoch. */
  ghost predicate Starts(c: Cache, k: nat, recs: seq<Rec>)
    requires k < |c|
  {
    exists i :: Begins(recs, i, c[k].leaderEpoch) && recs[i].offset == c[k].startOffset
  }

  ghost predicate Mentions(c: Cache, epoch: nat) {
    exists k :: 0 <= k < |c| && c[k].leaderEpoch == epoch
  }

  lemma {:induction false} StartsStill(c: Cache, k: nat, init: seq<Rec>, r: Rec)
    requires k < |c| && Starts(c, k, init)
    ensures Starts(c, k, init + [r])
  {
    var i :| Begins(init, i, c[k].leaderEpoch) && init[i].offset == c[k].startOffset;
    assert Begins(init + [r], i, c[k].leaderEpoch);
  }

  lemma {:induction false} CacheGrows(init: seq<Rec>, r: Rec, c: Cache)
    requires Lists(c, init) && r.offset >= LatestOffset(c)
    requires r.leaderEpoch >= LatestEpoch(c) && forall i :: 0 <= i < |init| ==> init[i].leaderEpoch <= LatestEpoch(c)
    ensures Lists(EpochFence.CacheAfterAppend(c, r.leaderEpoch, r.offset), init + [r])
  {
    var d, recs, n := EpochFence.CacheAfterAppend(c, r.leaderEpoch, r.offset), init + [r], |init|;
    assert d == if r.leaderEpoch > LatestEpoch(c) then c + [EpochOffset(r.leaderEpoch, r.offset)] else c;
    forall k | 0 <= k < |d| ensures Starts(d, k, recs) {
      if k < |c| {
        assert Starts(c, k, init);
        StartsStill(c, k, init, r);
        var i :| Begins(recs, i, c[k].leaderEpoch) && recs[i].offset == c[k].startOffset;
        assert d[k] == c[k];
      } else {
        assert Begins(recs, n, d[k].leaderEpoch);
      }
    }
    forall i | 0 <= i < |recs| && recs[i].leaderEpoch > 0 ensures Mentions(d, recs[i].leaderEpoch) {
      if i < n {
        assert Mentions(c, init[i].leaderEpoch);
        var k :| 0 <= k < |c| && c[k].leaderEpoch == init[i].leaderEpoch;
        assert d[k] == c[k];
      } else {
        assert d[|d| - 1].leaderEpoch == r.leaderEpoch;
      }
    }
  }

  /** On a log whose epochs never fall, the cache rebuilt by compaction lists each retained epoch once with its first
      retained offset. */
  lemma {:induction false} CompactionRebuildsCache(segs: seq<KeyedSegment>, hw: int)
    requires |segs| > 1 && Sorted(All(segs)) && EpochsRise(All(segs)) && forall r :: r in All(segs) ==> r.offset >= 0
    ensures Lists(CacheOver([], All(Compacted(segs, hw))), All(Compacted(segs, hw)))
  {
    CompactedSorted(segs, hw);
    forall r | r in All(Compacted(segs, hw)) ensures r in All(segs) {
      CompactionRetains(segs, hw, r);
    }
    CacheLists(All(Compacted(segs, hw)));
  }

  // ---------------------------------------------------------------- the cleaner

  lemma {:induction false} CacheOverConcat(c: Cache, a: seq<Rec>, b: seq<Rec>)
    ensures CacheOver(c, a + b) == CacheOver(CacheOver(c, a), b)
  {
    if b == [] {
      assert a + b == a;
    } else {
      assert (a + b)[..|a| + |b| - 1] == a + b[..|b| - 1];
      CacheOverConcat(c, a, b[..|b| - 1]);
    }
  }

  lemma {:induction false} KeptNext(recs: seq<Rec>, i: nat, latest: map<string, int>, hw: int)
    requires i < |recs|
    ensures Kept(recs[..i + 1], latest, hw) ==
            Kept(recs[..i], latest, hw) + if Keeps(latest, hw, recs[i]) then [recs[i]] else []
  {
    assert recs[..i + 1][..i] == recs[..i];
  }

  lemma {:induction false} CacheNext(c: Cache, recs: seq<Rec>, r: Rec)
    ensures CacheOver(c, recs + [r]) == EpochFence.CacheAfterAppend(CacheOver(c, recs), r.leaderEpoch, r.offset)
  {
    assert (recs + [r])[..|recs|] == recs;
  }

  method CleanSegment(seg: KeyedSegment, keyOffsets: map<string, int>, hw: int, epochCache: LeaderEpochCache)
    returns (cleaned: Option<KeyedSegment>, removed: nat)
    modifies epochCache
    ensures var kept := Kept(seg.recs, keyOffsets, hw);
            && cleaned == (if kept == [] then None else Some(KeyedSegment(seg.baseOffset, kept)))
            && removed == |seg.recs| - |kept|
            && epochCache.epochOffsets == CacheOver(old(epochCache.epochOffsets), kept)
  {
    var recs: seq<Rec> := [];
    removed := 0;
    for i := 0 to |seg.recs|
      invariant recs == Kept(seg.recs[..i], keyOffsets, hw) && removed == i - |recs|
      invariant epochCache.epochOffsets == CacheOver(old(epochCache.epochOffsets), recs)
    {
      var r := seg.recs[i];
      KeptNext(seg.recs, i, keyOffsets, hw);
      CacheNext(old(epochCache.epochOffsets), recs, r);
      var latestOffset := 0;
      if Slot(r) in keyOffsets {
        latestOffset := keyOffsets[Slot(r)];
      }
      if r.key.None? || r.offset == latestOffset || r.offset >= hw {
        recs := recs + [r];
        if r.leaderEpoch > LatestEpoch(epochCache.epochOffsets) {
          epochCache.Assign(r.leaderEpoch, r.offset);
        }
      } else {
        removed := removed + 1;
      }
    }
    assert seg.recs[..|seg.recs|] == seg.recs;
    cleaned := if recs == [] then None else Some(KeyedSegment(seg.baseOffset, recs));
  }

  /** Scans one segment after the records already seen; `quit` says that an offset above `hw` was met. */
  method ScanSegment(hw: int, seg: KeyedSegment, keyOffsets: map<string, int>, ghost seen: seq<Rec>)
    returns (offsets: map<string, int>, quit: bool)
    requires keyOffsets == Latest(seen, hw) && Sorted(seen + seg.recs)
    ensures offsets == Latest(seen + seg.recs, hw)
    ensures quit ==> exists r :: r in seg.recs && r.offset > hw
  {
    offsets, quit := keyOffsets, false;
    assert seen + seg.recs[..0] == seen;
    for j := 0 to |seg.recs|
      invariant offsets == Latest(seen + seg.recs[..j], hw)
    {
      var r := seg.recs[j];
      ghost var before, after := seen + seg.recs[..j], seen + seg.recs[..j + 1];
      assert after[..|before|] == before && after[|before|] == r;
      if r.offset > hw {
        assert (seen + seg.recs)[..|before|] == before;
        LatestStops(seen + seg.recs, |before|, hw);
        return offsets, true;
      }
      if Slot(r) !in offsets {
        offsets := offsets[Slot(r) := r.offset];
      } else if r.offset > offsets[Slot(r)] {
        offsets := offsets[Slot(r) := r.offset];
      }
      assert offsets == Noted(Latest(before, hw), r);
    }
    assert seg.recs[..|seg.recs|] == seg.recs;
  }

  /** One goroutine scanning all segments in order: it stops at the first offset above `hw`. */
  method ScanSegments(hw: int, segs: seq<KeyedSegment>) returns (keyOffsets: map<string, int>)
    requires Sorted(All(segs))
    ensures keyOffsets == Latest(All(segs), hw)
  {
    keyOffsets := map[];
    for i := 0 to |segs|
      invariant keyOffsets == Latest(All(segs[..i]), hw)
    {
      assert segs[..i + 1] == segs[..i] + [segs[i]];
      AllAppends(segs[..i], segs[i]);
      AllPrefix(segs, i + 1);
      var quit;
      keyOffsets, quit := ScanSegment(hw, segs[i], keyOffsets, All(segs[..i]));
      if quit {
        ghost var r :| r in segs[i].recs && r.offset > hw;
        ghost var seen := All(segs[..i + 1]);
        assert r in seen;
        ghost var n :| 0 <= n < |seen| && seen[n] == r;
        LatestIgnores(All(segs), |seen|, n, hw);
        assert All(segs)[..|seen|] == seen;
        return;
      }
    }
    assert segs[..|segs|] == segs;
  }

  lemma {:induction false} LatestIgnores(recs: seq<Rec>, k: nat, n: nat, hw: int)
    requires Sorted(recs) && n < k <= |recs| && recs[n].offset > hw
    ensures Latest(recs, hw) == Latest(recs[..k], hw)
  {
    LatestStops(recs, n, hw);
    LatestStops(recs[..k], n, hw);
    assert recs[..k][..n] == recs[..n];
  }

  lemma {:induction false} AllPrefix(segs: seq<KeyedSegment>, k: nat)
    requires k <= |segs|
    ensures All(segs[..k]) <= All(segs)
    decreases |segs| - k
  {
    if k == |segs| {
      assert segs[..k] == segs;
    } else {
      AllPrefix(segs, k + 1);
      assert segs[..k + 1] == segs[..k] + [segs[k]];
      AllAppends(segs[..k], segs[k]);
    }
  }

  lemma {:induction false} LatestStops(recs: seq<Rec>, n: nat, hw: int)
    requires Sorted(recs) && n < |recs| && recs[n].offset > hw
    ensures Latest(recs, hw) == Latest(recs[..n], hw)
    decreases |recs|
  {
    var m := |recs| - 1;
    assert recs[n].offset <= recs[m].offset;
    if m <= n {
    } else {
      LatestStops(recs[..m], n, hw);
      assert recs[..m][..n] == recs[..n];
    }
  }

  /** One more segment, seen from the cleaned ones and from the cache. */
  lemma {:induction false} CleanedNext(segs: seq<KeyedSegment>, i: nat, latest: map<string, int>, hw: int)
    requires i < |segs|
    ensures var kept := Kept(segs[i].recs, latest, hw);
            var before, after := Cleaned(segs[..i], latest, hw), Cleaned(segs[..i + 1], latest, hw);
            && after == before + (if kept == [] then [] else [KeyedSegment(segs[i].baseOffset, kept)])
            && All(segs[..i + 1]) == All(segs[..i]) + segs[i].recs && All(after) == All(before) + kept
            && CacheOver([], All(after)) == CacheOver(CacheOver([], All(before)), kept)
  {
    var kept, before := Kept(segs[i].recs, latest, hw), Cleaned(segs[..i], latest, hw);
    assert segs[..i + 1] == segs[..i] + [segs[i]] && segs[..i + 1][..i] == segs[..i];
    AllAppends(segs[..i], segs[i]);
    CacheOverConcat([], All(before), kept);
    assert before + [] == before && All(before) + [] == All(before);
    if kept != [] {
      AllAppends(before, KeyedSegment(segs[i].baseOffset, kept));
    }
  }

  method CompactSealed(hw: int, segs: seq<KeyedSegment>, keyOffsets: map<string, int>, cache: LeaderEpochCache)
    returns (compacted: seq<KeyedSegment>, removed: nat)
    requires cache.epochOffsets == []
    modifies cache
    ensures compacted == Cleaned(segs, keyOffsets, hw)
    ensures removed == |All(segs)| - |All(compacted)|
    ensures cache.epochOffsets == CacheOver([], All(compacted))
  {
    compacted, removed := [], 0;
    for i := 0 to |segs|
      invariant compacted == Cleaned(segs[..i], keyOffsets, hw)
      invariant removed == |All(segs[..i])| - |All(compacted)|
      invariant cache.epochOffsets == CacheOver([], All(compacted))
    {
      var cleaned, msgsRemoved := CleanSegment(segs[i], keyOffsets, hw, cache);
      CleanedNext(segs, i, keyOffsets, hw);
      if cleaned.Some? {
        compacted := compacted + [cleaned.value];
      }
      removed := removed + msgsRemoved;
    }
    assert segs[..|segs|] == segs;
  }

  method AssignEpochs(recs: seq<Rec>, cache: LeaderEpochCache)
    modifies cache
    ensures cache.epochOffsets == CacheOver(old(cache.epochOffsets), recs)
  {
    for i := 0 to |recs|
      invariant cache.epochOffsets == CacheOver(old(cache.epochOffsets), recs[..i])
    {
      assert recs[..i + 1][..i] == recs[..i];
      if recs[i].leaderEpoch > LatestEpoch(cache.epochOffsets) {
        cache.Assign(recs[i].leaderEpoch, recs[i].offset);
      }
    }
    assert recs[..|recs|] == recs;
  }

  method Compact(hw: int, segs: seq<KeyedSegment>)
      returns (compacted: seq<KeyedSegment>, epochCache: LeaderEpochCache?, removed: nat)
    requires Sorted(All(segs))
    ensures compacted == Compacted(segs, hw)
    ensures |segs| <= 1 ==> epochCache == null && removed == 0
    ensures |segs| > 1 ==> epochCache != null && epochCache.epochOffsets == CacheOver([], All(compacted))
    ensures removed == |All(segs)| - |All(compacted)|
  {
    if |segs| <= 1 {
      return segs, null, 0;
    }
    var n := |segs| - 1;
    var cache := new LeaderEpochCache();
    var keyOffsets := ScanSegments(hw, segs);
    compacted, removed := CompactSealed(hw, segs[..n], keyOffsets, cache);
    var last := segs[n];
    AllAppends(segs[..n], last);
    assert segs[..n] + [last] == segs;
    AllAppends(compacted, last);
    CacheOverConcat([], All(compacted), last.recs);
    compacted := compacted + [last];
    AssignEpochs(last.recs, cache);
    epochCache := cache;
  }
}

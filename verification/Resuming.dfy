/** A committed reader whose segments are replaced under it, as compaction does: it starts anew after the last message
    it returned. */
module Resuming {
  import opened Bytes
  import opened Integers
  import opened Reader

  /** The header names the message's offset. */
  predicate Labelled(m: Stored) {
    |m.bytes| >= 8 && GetInt64(m.bytes, 0) == m.offset
  }

  /** The sights of a log from one replacement to the next. */
  ghost predicate IsLife(env: seq<Snapshot>) {
    env != [] && History(env) && forall t :: 0 <= t < |env| ==> SightLabelled(env[t].files)
  }

  ghost predicate SightLabelled(files: seq<File>) {
    forall n :: 0 <= n < |All(files)| ==> Labelled(All(files)[n])
  }

  /** What is committed stays committed over a replacement. */
  ghost predicate AreLives(lives: seq<seq<Snapshot>>) {
    && (forall j :: 0 <= j < |lives| ==> IsLife(lives[j]))
    && forall j, k :: 0 <= j < k < |lives| ==> FinalHW(lives[j]) <= InitialHW(lives[k])
  }

  ghost function FinalHW(env: seq<Snapshot>): int {
    if env == [] then -1 else env[|env| - 1].hw
  }

  ghost function InitialHW(env: seq<Snapshot>): int {
    if env == [] then -1 else env[0].hw
  }

  /** The log holds a message with this offset when the life ends. */
  ghost predicate Held(env: seq<Snapshot>, offset: int) {
    env != [] && Present(env[|env| - 1].files, offset)
  }

  /** Part of what a log holds, from number `c` on. */
  ghost predicate IsPart(part: seq<Stored>, files: seq<File>, c: nat) {
    c + |part| <= |All(files)| && forall i :: 0 <= i < |part| ==> part[i] == All(files)[c + i]
  }

  // ---------------------------------------------------------------- one life

  /** A message held at the end of the life whose offset is between the start and the last one returned was returned. */
  lemma {:induction false} NoneSkipped(env: seq<Snapshot>, u: nat, from: int, c: nat, part: seq<Stored>, o: int)
    requires IsLife(env) && u < |env| && FirstAt(env[u].files, from, c) && IsPart(part, env[u].files, c) && part != []
    requires Held(env, o) && from <= o <= part[|part| - 1].offset
    ensures exists i :: 0 <= i < |part| && part[i].offset == o
  {
    var n := HeldNumber(env, u, o);
    NumberWithin(All(env[u].files), All(env[|env| - 1].files), from, c, part, n);
  }

  lemma {:induction false} HeldNumber(env: seq<Snapshot>, u: nat, o: int) returns (n: nat)
    requires History(env) && u < |env| && Held(env, o)
    ensures var some, all := All(env[u].files), All(env[|env| - 1].files);
            && n < |all| && all[n].offset == o && Rising(all)
            && |some| <= |all| && forall i :: 0 <= i < |some| ==> some[i] == all[i]
  {
    var last := |env| - 1;
    assert Sight(env, last) && Later(env, u, last) && Sight(env, u);
    AllGrows(env[u].files, env[last].files);
    AllRises(env[last].files);
    n := PresentNumber(env[last].files, o);
  }

  lemma {:induction false} NumberWithin(some: seq<Stored>, all: seq<Stored>, from: int, c: nat, part: seq<Stored>,
        n: nat)
    requires Rising(all) && |some| <= |all| && n < |all| && part != []
    requires forall i :: 0 <= i < |some| ==> some[i] == all[i]
    requires c <= |some| && forall i :: 0 <= i < |some| ==> (some[i].offset >= from <==> c <= i)
    requires c + |part| <= |some| && forall i :: 0 <= i < |part| ==> part[i] == some[c + i]
    requires from <= all[n].offset <= part[|part| - 1].offset
    ensures exists i :: 0 <= i < |part| && part[i].offset == all[n].offset
  {
    var m := c + |part| - 1;
    assert part[|part| - 1] == all[m];
    assert n <= m;
    assert part[n - c] == all[n];
  }

  /** The offset of each message, from its header. */
  method WithOffsets(out: seq<seq<Byte>>, ghost all: seq<Stored>, ghost c: nat) returns (part: seq<Stored>)
    requires c + |out| <= |all|
    requires forall i :: 0 <= i < |out| ==> all[c + i].bytes == out[i] && Labelled(all[c + i])
    ensures |part| == |out| && forall i :: 0 <= i < |part| ==> part[i] == all[c + i]
  {
    part := [];
    for i := 0 to |out|
      invariant |part| == i && forall k :: 0 <= k < i ==> part[k] == all[c + k]
    {
      assert all[c + i].bytes == out[i];
      part := part + [Stored(GetInt64(out[i], 0), out[i])];
    }
  }

  lemma {:induction false} DeliveredAreLabelled(env: seq<Snapshot>, u: nat, from: int, c: nat, out: seq<seq<Byte>>)
    requires IsLife(env) && u < |env| && FirstAt(env[u].files, from, c)
    requires forall i :: 0 <= i < |out| ==> Delivers(env[u], c + i, out[i])
    ensures var all := All(env[u].files);
            && c + |out| <= |all|
            && forall i :: 0 <= i < |out| ==> all[c + i].bytes == out[i] && Labelled(all[c + i])
  {
    assert SightLabelled(env[u].files);
    assert out != [] ==> Delivers(env[u], c + (|out| - 1), out[|out| - 1]);
  }

  /** Up to `limit` messages from an offset on, until the reader has to start anew. */
  method ReadOn(offset: nat, env: seq<Snapshot>, limit: nat)
      returns (part: seq<Stored>, ghost u: nat, ghost c: nat)
    requires IsLife(env)
    ensures u < |env| && |part| <= limit && IsPart(part, env[u].files, c)
    ensures offset <= env[0].hw ==> FirstAt(env[u].files, offset, c)
    ensures offset > env[0].hw ==> FirstAt(env[u].files, env[0].hw + 1, c)
    ensures forall i :: 0 <= i < |part| ==> part[i].offset <= env[u].hw
    ensures |part| < limit ==> Exhausted(env[u], c + |part|) && u == |env| - 1
  {
    var out, v, d := ReadFrom(offset, env, 0, limit);
    u, c := v, d;
    DeliveredAreLabelled(env, u, Min(offset, env[0].hw + 1), c, out);
    part := WithOffsets(out, All(env[u].files), c);
    forall i | 0 <= i < |part| ensures part[i].offset <= env[u].hw {
      assert Delivers(env[u], c + i, out[i]);
    }
  }

  // ---------------------------------------------------------------- across replacements

  /** The offset is among those returned. */
  ghost predicate Returned(out: seq<Stored>, offset: int) {
    exists i :: 0 <= i < |out| && out[i].offset == offset
  }

  /** What every log so far held, from one offset up to another, was returned. */
  ghost predicate Complete(lives: seq<seq<Snapshot>>, n: nat, from: int, to: int, out: seq<Stored>)
    requires n <= |lives|
  {
    forall o {:trigger Returned(out, o)} ::
      from <= o < to && (forall j :: 0 <= j < n ==> Held(lives[j], o)) ==> Returned(out, o)
  }

  lemma {:induction false} StaysComplete(lives: seq<seq<Snapshot>>, n: nat, from: int, offset: nat, out: seq<Stored>,
      part: seq<Stored>, u: nat, c: nat)
    requires n < |lives| && IsLife(lives[n]) && Complete(lives, n, from, offset, out) && part != []
    requires u < |lives[n]| && FirstAt(lives[n][u].files, Min(offset, lives[n][0].hw + 1), c)
    requires IsPart(part, lives[n][u].files, c)
    ensures Complete(lives, n + 1, from, part[|part| - 1].offset + 1, out + part)
  {
    forall o | from <= o < part[|part| - 1].offset + 1 && (forall j :: 0 <= j < n + 1 ==> Held(lives[j], o))
      ensures Returned(out + part, o)
    {
      if o < offset {
        assert Returned(out, o);
        var i :| 0 <= i < |out| && out[i].offset == o;
        assert (out + part)[i].offset == o;
      } else {
        NoneSkipped(lives[n], u, Min(offset, lives[n][0].hw + 1), c, part, o);
        var i :| 0 <= i < |part| && part[i].offset == o;
        assert (out + part)[|out| + i].offset == o;
      }
    }
  }

  /** A reader that stops short of its limit has returned all there is. */
  lemma {:induction false} AllReturned(lives: seq<seq<Snapshot>>, n: nat, from: int, offset: nat, out: seq<Stored>,
      part: seq<Stored>, c: nat)
    requires n < |lives| && IsLife(lives[n]) && Complete(lives, n, from, offset, out)
    requires var s := lives[n][|lives[n]| - 1];
             && FirstAt(s.files, Min(offset, lives[n][0].hw + 1), c) && IsPart(part, s.files, c)
             && Exhausted(s, c + |part|)
    ensures Complete(lives, n + 1, from, FinalHW(lives[n]) + 1, out + part)
  {
    var s := lives[n][|lives[n]| - 1];
    forall o | from <= o < s.hw + 1 && (forall j :: 0 <= j < n + 1 ==> Held(lives[j], o))
      ensures Returned(out + part, o)
    {
      if o < offset {
        assert Returned(out, o);
        var i :| 0 <= i < |out| && out[i].offset == o;
        assert (out + part)[i].offset == o;
      } else {
        assert Held(lives[n], o);
        var k := PresentNumber(s.files, o);
        assert c <= k < c + |part|;
        assert part[k - c].offset == o && (out + part)[|out| + (k - c)].offset == o;
      }
    }
  }

  lemma {:induction false} NothingNew(lives: seq<seq<Snapshot>>, n: nat, from: int, offset: int, out: seq<Stored>)
    requires n < |lives| && Complete(lives, n, from, offset, out)
    ensures Complete(lives, n + 1, from, offset, out)
  {
  }

  lemma {:induction false} StaysRising(out: seq<Stored>, part: seq<Stored>)
    requires Rising(out) && Rising(part)
    requires out != [] && part != [] ==> out[|out| - 1].offset < part[0].offset
    ensures Rising(out + part)
  {
  }

  lemma {:induction false} PartRises(part: seq<Stored>, files: seq<File>, c: nat)
    requires FilesOk(files) && IsPart(part, files, c)
    ensures Rising(part)
  {
    AllRises(files);
  }

  /**
   * Reads on over any number of replacements, so many messages in each life of the log. Offsets rise, so no message
   * comes twice; every message from the start to the last one returned that all the logs hold is returned; and so is
   * every committed one, if the reader asked for more in the last life.
   */
  method ReadAcross(lives: seq<seq<Snapshot>>, limits: seq<nat>, from: nat) returns (out: seq<Stored>)
    requires AreLives(lives) && |limits| == |lives|
    ensures Rising(out)
    ensures out != [] ==> Complete(lives, |lives|, from, out[|out| - 1].offset + 1, out)
    ensures out != [] && lives != [] ==> out[|out| - 1].offset <= FinalHW(lives[|lives| - 1])
    ensures lives != [] && |out| < limits[|lives| - 1] ==>
              Complete(lives, |lives|, from, FinalHW(lives[|lives| - 1]) + 1, out)
  {
    out := [];
    var offset: nat := from;
    for n := 0 to |lives|
      invariant Standing(lives, n, from, offset, out)
      invariant n > 0 && |out| < limits[n - 1] ==> Complete(lives, n, from, FinalHW(lives[n - 1]) + 1, out)
    {
      out, offset := ReadLife(lives, n, limits[n], from, offset, out);
    }
  }

  /** What has been returned over the first `n` lives, and the offset to go on from. */
  ghost predicate Standing(lives: seq<seq<Snapshot>>, n: nat, from: nat, offset: nat, out: seq<Stored>)
    requires n <= |lives|
  {
    && Rising(out) && Complete(lives, n, from, offset, out)
    && (out != [] ==> n > 0 && offset == out[|out| - 1].offset + 1 && offset - 1 <= FinalHW(lives[n - 1]))
  }

  /** One life of the log. */
  method ReadLife(lives: seq<seq<Snapshot>>, n: nat, limit: nat, from: nat, offset: nat, before: seq<Stored>)
      returns (out: seq<Stored>, next: nat)
    requires AreLives(lives) && n < |lives| && Standing(lives, n, from, offset, before)
    ensures Standing(lives, n + 1, from, next, out)
    ensures |out| < limit ==> Complete(lives, n + 1, from, FinalHW(lives[n]) + 1, out)
  {
    var part, u, c := ReadOn(offset, lives[n], limit);
    out, next := before + part, offset;
    if |part| < limit {
      AllReturned(lives, n, from, offset, before, part, c);
    }
    if part == [] {
      assert out == before;
      NothingNew(lives, n, from, offset, out);
      HWStays(lives, n);
    } else {
      GoesOn(lives, n, from, offset, before, part, u, c);
      next := part[|part| - 1].offset + 1;
    }
  }

  lemma {:induction false} GoesOn(lives: seq<seq<Snapshot>>, n: nat, from: nat, offset: nat, before: seq<Stored>,
      part: seq<Stored>, u: nat, c: nat)
    requires n < |lives| && IsLife(lives[n]) && Standing(lives, n, from, offset, before) && part != []
    requires u < |lives[n]| && FirstAt(lives[n][u].files, Min(offset, lives[n][0].hw + 1), c)
    requires IsPart(part, lives[n][u].files, c) && part[|part| - 1].offset <= lives[n][u].hw
    requires before != [] ==> n > 0 && FinalHW(lives[n - 1]) <= InitialHW(lives[n])
    ensures part[|part| - 1].offset >= 0 && Standing(lives, n + 1, from, part[|part| - 1].offset + 1, before + part)
  {
    assert part[0] == All(lives[n][u].files)[c];
    assert Sight(lives[n], u) && Later(lives[n], u, |lives[n]| - 1);
    PartRises(part, lives[n][u].files, c);
    StaysRising(before, part);
    StaysComplete(lives, n, from, offset, before, part, u, c);
    NotNegative(lives[n], u, c, part);
  }

  lemma {:induction false} HWStays(lives: seq<seq<Snapshot>>, n: nat)
    requires AreLives(lives) && n < |lives|
    ensures n > 0 ==> FinalHW(lives[n - 1]) <= InitialHW(lives[n])
    ensures InitialHW(lives[n]) <= FinalHW(lives[n])
  {
    assert IsLife(lives[n]) && Later(lives[n], 0, |lives[n]| - 1);
  }

  lemma {:induction false} NotNegative(env: seq<Snapshot>, u: nat, c: nat, part: seq<Stored>)
    requires IsLife(env) && u < |env| && IsPart(part, env[u].files, c) && part != []
    ensures part[|part| - 1].offset >= 0
  {
    assert Sight(env, u);
    var i, k := Place(env[u].files, c + |part| - 1);
    assert FileOk(env[u].files[i]);
  }
}

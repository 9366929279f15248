/** Filling one replication response, and how many rounds a lagging follower needs. */
module Fetch {
  import opened Integers
  import opened Bytes
  import opened Sequences
  import opened Envelope
  import M = MessageSet
  import R = Reader

  /** A message as the reader returns it: its offset and its bytes, set header included. */
  type Stored = R.Stored

  /** The most a response may hold, with its prefix of 24 bytes. */
  const MAX_SIZE: nat := 1024 * 1024
  const PREFIX: nat := 24

  function Data(msgs: seq<Stored>): seq<Byte> {
    Flat(R.Chunks(msgs))
  }

  lemma {:induction false} DataSnoc(msgs: seq<Stored>, n: nat)
    requires n < |msgs|
    ensures Data(msgs[..n + 1]) == Data(msgs[..n]) + msgs[n].bytes
  {
    assert R.Chunks(msgs[..n + 1])[..n] == R.Chunks(msgs[..n]);
  }

  predicate FitsResponse(msgs: seq<Stored>, n: nat)
    requires n <= |msgs|
  {
    PREFIX + |Data(msgs[..n])| <= MAX_SIZE
  }

  /** The batch sent: as many messages as fit, one after the other. */
  ghost predicate IsBatch(msgs: seq<Stored>, n: nat) {
    n <= |msgs| && FitsResponse(msgs, n) && (n < |msgs| ==> !FitsResponse(msgs, n + 1))
  }

  // ---------------------------------------------------------------- the protocol writer

  class ProtocolWriter {
    const epoch: nat
    var buf: seq<Byte>
    var lastOffset: int
    var dataPos: nat

    /** The prefix, with the watermark still zero, then the messages written so far. */
    ghost predicate Holds(data: seq<Byte>)
      reads this
    {
      epoch < U64 && dataPos == 8 && buf == Marshal(Response(epoch, 0, data))
    }

    constructor (epoch: nat)
      requires epoch < U64
      ensures Holds([]) && this.epoch == epoch
    {
      this.epoch := epoch;
      buf, lastOffset, dataPos := ResponseHeader() + BE(epoch, 8) + PutInt64(0), -1, 8;
    }

    method Reset()
      requires epoch < U64
      modifies this
      ensures Holds([]) && lastOffset == -1
    {
      buf, lastOffset := ResponseHeader(), -1;
      dataPos := |buf|;
      buf := buf + BE(epoch, 8) + PutInt64(0);
    }

    method Write(m: Stored, ghost data: seq<Byte>)
      requires Holds(data)
      modifies this
      ensures Holds(data + m.bytes) && lastOffset == m.offset
    {
      buf, lastOffset := buf + m.bytes, m.offset;
    }

    /** Puts the current watermark in place of the zero and hands the bytes over. */
    method Flush(hw: int, ghost data: seq<Byte>) returns (sent: seq<Byte>)
      requires Holds(data) && Int64(hw)
      modifies this
      ensures Holds([]) && sent == Marshal(Response(epoch, hw, data))
    {
      var w := PutInt64(hw);
      sent := buf[..dataPos + 8] + w + buf[dataPos + 16..];
      assert buf[..dataPos + 8] == ResponseHeader() + BE(epoch, 8);
      assert buf[dataPos + 16..] == data;
      Reset();
    }
  }

  /**
   * Reads messages from the requested offset on into the response until the log end seen at the start, or until
   * one does not fit. `msgs` are the messages the reader goes on to return, the last of them at that log end.
   */
  method Replicate(w: ProtocolWriter, msgs: seq<Stored>, offset: int, newest: int, hw: int)
      returns (sent: seq<Byte>, ghost n: nat)
    requires w.Holds([]) && Int64(hw) && Follow(msgs, offset, newest)
    modifies w
    ensures w.Holds([]) && IsBatch(msgs, n) && sent == Marshal(Response(w.epoch, hw, Data(msgs[..n])))
  {
    var at, i := offset, 0;
    assert R.Chunks(msgs[..0]) == [];
    while at < newest && |w.buf| < MAX_SIZE
      invariant i <= |msgs| && w.Holds(Data(msgs[..i])) && FitsResponse(msgs, i)
      invariant at == if i == 0 then offset else msgs[i - 1].offset
      decreases |msgs| - i
    {
      GoesOn(msgs, offset, newest, i);
      var m := msgs[i];
      at := m.offset;
      DataSnoc(msgs, i);
      if |m.bytes| + |w.buf| > MAX_SIZE {
        n := i;
        sent := w.Flush(hw, Data(msgs[..n]));
        return;
      }
      w.Write(m, Data(msgs[..i]));
      i := i + 1;
    }
    n := i;
    Stops(msgs, offset, newest, n);
    sent := w.Flush(hw, Data(msgs[..n]));
  }

  lemma {:induction false} GoesOn(msgs: seq<Stored>, offset: int, newest: int, i: nat)
    requires Follow(msgs, offset, newest) && i <= |msgs| && (if i == 0 then offset else msgs[i - 1].offset) < newest
    ensures i < |msgs|
  {
  }

  lemma {:induction false} Stops(msgs: seq<Stored>, offset: int, newest: int, i: nat)
    requires Follow(msgs, offset, newest) && i <= |msgs| && FitsResponse(msgs, i)
    requires (if i == 0 then offset else msgs[i - 1].offset) >= newest || PREFIX + |Data(msgs[..i])| >= MAX_SIZE
    ensures IsBatch(msgs, i)
  {
    if i < |msgs| {
      DataSnoc(msgs, i);
    }
  }

  /** The messages between the requested offset and the log end. */
  ghost predicate Follow(msgs: seq<Stored>, offset: int, newest: int) {
    && (forall i :: 0 <= i < |msgs| ==> offset < msgs[i].offset <= newest && msgs[i].bytes != [])
    && (forall i, j :: 0 <= i < j < |msgs| ==> msgs[i].offset < msgs[j].offset)
    && (offset < newest ==> msgs != [] && msgs[|msgs| - 1].offset == newest)
  }

  // ---------------------------------------------------------------- what a follower gets

  /** The response is never too large, and decodes to what was put in. */
  lemma {:induction false} BatchReadsBack(epoch: nat, hw: int, msgs: seq<Stored>, n: nat, crc: Digest)
    requires IsBatch(msgs, n) && epoch < U64 && Int64(hw)
    ensures var sent := Marshal(Response(epoch, hw, Data(msgs[..n])));
            |sent| <= MAX_SIZE && Unmarshal(sent, crc) == Good(Response(epoch, hw, Data(msgs[..n])))
  {
    ResponseReadsBack(Response(epoch, hw, Data(msgs[..n])), crc);
  }

  /** A batch holds a message if and only if the first one fits by itself. */
  lemma {:induction false} BatchNotEmpty(msgs: seq<Stored>, n: nat)
    requires IsBatch(msgs, n) && msgs != []
    ensures n > 0 <==> PREFIX + |msgs[0].bytes| <= MAX_SIZE
  {
    DataSnoc(msgs, 0);
    assert R.Chunks(msgs[..0]) == [];
    FitsPrefix(msgs, 1, n);
  }

  lemma {:induction false} FitsPrefix(msgs: seq<Stored>, k: nat, n: nat)
    requires k <= |msgs| && n <= |msgs| && FitsResponse(msgs, n)
    ensures k <= n ==> FitsResponse(msgs, k)
    decreases n
  {
    if n <= k {
    } else {
      DataSnoc(msgs, n - 1);
      FitsPrefix(msgs, k, n - 1);
    }
  }

  /** There is exactly one such batch. */
  lemma {:induction false} BatchUnique(msgs: seq<Stored>, m: nat, n: nat)
    requires IsBatch(msgs, m) && IsBatch(msgs, n)
    ensures m == n
  {
    if m < n {
      FitsPrefix(msgs, m + 1, n);
    } else if n < m {
      FitsPrefix(msgs, n + 1, m);
    }
  }

  // ---------------------------------------------------------------- catching up

  /** Rounds of a follower: how much of the log it has before each, every round adding one batch. */
  ghost predicate Rounds(log: seq<Stored>, have: seq<nat>) {
    && have != [] && (forall r :: 0 <= r < |have| ==> have[r] <= |log|)
    && forall r :: 0 <= r < |have| - 1 ==> RoundAt(log, have, r)
  }

  ghost predicate RoundAt(log: seq<Stored>, have: seq<nat>, r: nat)
    requires r + 1 < |have| && have[r] <= |log|
  {
    have[r] <= have[r + 1] && IsBatch(log[have[r]..], have[r + 1] - have[r])
  }

  /** The message fits a response by itself. */
  predicate FitsAlone(m: Stored) {
    PREFIX + |m.bytes| <= MAX_SIZE
  }

  /** The first message from `from` on that does not, or the end of the log. */
  function FirstLarge(log: seq<Stored>, from: nat): (k: nat)
    requires from <= |log|
    ensures from <= k <= |log| && (forall i :: from <= i < k ==> FitsAlone(log[i])) &&
            (k < |log| ==> !FitsAlone(log[k]))
    decreases |log| - from
  {
    if from == |log| || !FitsAlone(log[from]) then from else FirstLarge(log, from + 1)
  }

  lemma {:induction false} EachFits(msgs: seq<Stored>, n: nat, i: nat)
    requires i < n <= |msgs| && FitsResponse(msgs, n)
    ensures FitsAlone(msgs[i])
  {
    FitsPrefix(msgs, i + 1, n);
    DataSnoc(msgs, i);
  }

  /** With nothing new published, a follower goes at least one message further in every round until it stands at the
      first message that is too large, which it never passes. */
  lemma {:induction false} GoesToFirstLarge(log: seq<Stored>, have: seq<nat>, r: nat)
    requires Rounds(log, have) && r < |have|
    ensures var large := FirstLarge(log, have[0]);
            have[0] <= have[r] <= large && (have[r] == large || have[r] >= have[0] + r)
  {
    if r == 0 {
    } else {
      GoesToFirstLarge(log, have, r - 1);
      assert RoundAt(log, have, r - 1);
      OneRound(log, have[0], have[r - 1], have[r] - have[r - 1]);
    }
  }

  lemma {:induction false} OneRound(log: seq<Stored>, from: nat, h: nat, n: nat)
    requires from <= |log| && from <= h <= FirstLarge(log, from) && IsBatch(log[h..], n)
    ensures h + n <= FirstLarge(log, from) && (h == FirstLarge(log, from) || n > 0)
  {
    var large := FirstLarge(log, from);
    if h < |log| {
      BatchNotEmpty(log[h..], n);
      assert log[h..][0] == log[h];
    }
    if large < h + n {
      assert log[h..][large - h] == log[large];
      EachFits(log[h..], n, large - h);
    }
  }

  /** After one round per message it lacks, a follower has the whole log if and only if every message it lacked fits a
      response by itself. */
  lemma {:induction false} CatchesUp(log: seq<Stored>, have: seq<nat>)
    requires Rounds(log, have) && |have| > |log| - have[0]
    ensures have[|have| - 1] == |log| <==> forall i :: have[0] <= i < |log| ==> FitsAlone(log[i])
  {
    GoesToFirstLarge(log, have, |have| - 1);
  }

  // ---------------------------------------------------------------- one whole round

  function StoredOf(f: M.Frame): Stored {
    R.Stored(f.offset, M.FrameBytes(f))
  }

  function AllStored(fs: seq<M.Frame>): (ms: seq<Stored>)
    ensures |ms| == |fs| && forall i :: 0 <= i < |fs| ==> ms[i] == StoredOf(fs[i])
  {
    seq(|fs|, i requires 0 <= i < |fs| => StoredOf(fs[i]))
  }

  lemma {:induction false} DataIsSet(fs: seq<M.Frame>)
    ensures Data(AllStored(fs)) == M.SetBytes(fs)
  {
    assert R.Chunks(AllStored(fs)) == M.Blocks(fs);
  }

  /** What a leader's reader returns from a log without gaps is what `Replicate` expects. */
  lemma {:induction false} ReaderFollows(fs: seq<M.Frame>, h: nat)
    requires h <= |fs| && forall i :: 0 <= i < |fs| ==> fs[i].offset == i
    ensures Follow(AllStored(fs)[h..], h - 1, |fs| - 1)
  {
  }

  /**
   * One round. A follower that has the first `h` messages of the leader's log is sent the next `n`, as many as fit.
   * What it decodes has the leader's epoch and watermark, starts at its next offset and is indexed as the leader
   * indexed it, so that it then has the first `h + n`.
   */
  lemma {:induction false} RoundDelivers(fs: seq<M.Frame>, h: nat, n: nat, epoch: nat, hw: int, basePos: int,
        crc: Digest)
    requires h <= |fs| && (forall i :: 0 <= i < |fs| ==> fs[i].offset == i && fs[i].payload != [])
    requires IsBatch(AllStored(fs)[h..], n) && epoch < U64 && Int64(hw)
    ensures var got := Unmarshal(Marshal(Response(epoch, hw, Data(AllStored(fs)[h..][..n]))), crc);
            && h + n <= |fs| && got == Good(Response(epoch, hw, M.SetBytes(fs[h..h + n])))
            && M.Parsed(basePos, got.value.messages) == M.Entries(M.EntriesOf(fs[h..h + n], basePos))
            && (n > 0 ==> |got.value.messages| > M.HEADER_LEN && GetInt64(got.value.messages, 0) == h)
            && fs[..h] + fs[h..h + n] == fs[..h + n]
  {
    var part := fs[h..h + n];
    PartIsSet(fs, h, n);
    BatchReadsBack(epoch, hw, AllStored(fs)[h..], n, crc);
    PartParses(part, basePos);
  }

  lemma {:induction false} PartIsSet(fs: seq<M.Frame>, h: nat, n: nat)
    requires h + n <= |fs|
    ensures Data(AllStored(fs)[h..][..n]) == M.SetBytes(fs[h..h + n])
  {
    assert AllStored(fs)[h..][..n] == AllStored(fs[h..h + n]);
    DataIsSet(fs[h..h + n]);
  }

  lemma {:induction false} PartParses(part: seq<M.Frame>, basePos: int)
    requires forall i :: 0 <= i < |part| ==> part[i].payload != []
    ensures M.Parsed(basePos, M.SetBytes(part)) == M.Entries(M.EntriesOf(part, basePos))
    ensures part != [] ==> |M.SetBytes(part)| > M.HEADER_LEN && GetInt64(M.SetBytes(part), 0) == part[0].offset
  {
    M.ParseUndoesPrint(part, basePos);
    if part != [] {
      M.FrameHeader(part, 0);
      assert M.Blocks(part)[..0] == [];
    }
  }
}

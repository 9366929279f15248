/** The committed reader: it walks the segments up to the high watermark, across rolls and advances of both. */
module Reader {
  import opened Integers
  import opened Search
  import opened Bytes
  import opened Sequences

  const HEADER_LEN: nat := 28

  /** A message as stored: its offset and its bytes, header first. */
  datatype Stored = Stored(offset: int, bytes: seq<Byte>)

  /** The size field of the header counts the bytes after it. */
  predicate WellFramed(m: Stored) {
    |m.bytes| >= HEADER_LEN && GetInt32(m.bytes, 24) == |m.bytes| - HEADER_LEN
  }

  datatype File = File(base: int, msgs: seq<Stored>)

  /** What a reader sees when it looks: the segment list and the high watermark. */
  datatype Snapshot = Snapshot(files: seq<File>, hw: int)

  function NextOffset(f: File): int {
    if f.msgs == [] then f.base else f.msgs[|f.msgs| - 1].offset + 1
  }

  function Chunks(msgs: seq<Stored>): (cs: seq<seq<Byte>>)
    ensures |cs| == |msgs| && forall i :: 0 <= i < |msgs| ==> cs[i] == msgs[i].bytes
  {
    seq(|msgs|, i requires 0 <= i < |msgs| => msgs[i].bytes)
  }

  /** The bytes of the log file. */
  function Content(f: File): seq<Byte> {
    Flat(Chunks(f.msgs))
  }

  /** Where message `k` begins. */
  function Position(f: File, k: nat): nat
    requires k <= |f.msgs|
  {
    Start(Chunks(f.msgs), k)
  }

  ghost predicate FileOk(f: File) {
    && 0 <= f.base
    && (forall k :: 0 <= k < |f.msgs| ==> WellFramed(f.msgs[k]) && f.base <= f.msgs[k].offset)
    && forall j, k :: 0 <= j < k < |f.msgs| ==> f.msgs[j].offset < f.msgs[k].offset
  }

  /** Segments in order, none empty but the last. */
  ghost predicate FilesOk(files: seq<File>) {
    && files != [] && (forall i :: 0 <= i < |files| ==> FileOk(files[i]))
    && (forall i :: 0 <= i < |files| - 1 ==> files[i].msgs != [])
    && forall i, j :: 0 <= i < j < |files| ==> files[i].base < files[j].base && NextOffset(files[i]) <= files[j].base
  }

  /** The message with offset `hw` is number `m` of file `j`. */
  ghost predicate Located(files: seq<File>, hw: int, j: nat, m: nat) {
    j < |files| && m < |files[j].msgs| && files[j].msgs[m].offset == hw
  }

  ghost predicate Present(files: seq<File>, offset: int) {
    exists j: nat, m: nat :: Located(files, offset, j, m)
  }

  /** The message of the watermark is in the log. */
  ghost predicate SnapshotOk(s: Snapshot) {
    FilesOk(s.files) && -1 <= s.hw && (s.hw != -1 ==> Present(s.files, s.hw))
  }

  /** Only the active segment is written to, and segments are only added. */
  ghost predicate Grows(a: seq<File>, b: seq<File>) {
    && |a| <= |b|
    && (forall i :: 0 <= i < |a| ==> a[i].base == b[i].base && a[i].msgs <= b[i].msgs)
    && forall i :: 0 <= i < |a| - 1 ==> a[i].msgs == b[i].msgs
  }

  ghost predicate Sight(env: seq<Snapshot>, t: nat)
    requires t < |env|
  {
    SnapshotOk(env[t])
  }

  ghost predicate Later(env: seq<Snapshot>, t: nat, u: nat)
    requires t <= u < |env|
  {
    Grows(env[t].files, env[u].files) && env[t].hw <= env[u].hw
  }

  /** Successive sights of a log that is being appended to. */
  ghost predicate History(env: seq<Snapshot>) {
    (forall t :: 0 <= t < |env| ==> Sight(env, t)) && forall t, u :: 0 <= t <= u < |env| ==> Later(env, t, u)
  }

  /** How many messages come before file `i`. */
  function Count(files: seq<File>, i: nat): nat
    requires i <= |files|
  {
    if i == 0 then 0 else Count(files, i - 1) + |files[i - 1].msgs|
  }

  // ---------------------------------------------------------------- lookups

  function Passing(files: seq<File>, offset: int): nat -> bool {
    (i: nat) => i < |files| && NextOffset(files[i]) > offset
  }

  function FileIndex(files: seq<File>, offset: int): (i: nat)
    ensures i <= |files|
  {
    Search.Search(|files|, Passing(files, offset))
  }

  function Covering(msgs: seq<Stored>, offset: int): nat -> bool {
    (k: nat) => k < |msgs| && msgs[k].offset >= offset
  }

  /** The first entry whose offset is at least the given one. */
  function EntryIndex(msgs: seq<Stored>, offset: int): (k: nat)
    ensures k <= |msgs|
  {
    Search.Search(|msgs|, Covering(msgs, offset))
  }

  /** The segment of the high watermark and the position just past its message; nothing when either lookup fails. */
  function HWPos(files: seq<File>, hw: int): (r: Option<(nat, nat)>) {
    var i := FileIndex(files, hw);
    if i == |files| then None else
    var k := EntryIndex(files[i].msgs, hw);
    if k == |files[i].msgs| then None else Some((i, Position(files[i], k) + |files[i].msgs[k].bytes|))
  }

  function BasedAfter(files: seq<File>, base: int): nat -> bool {
    (i: nat) => i < |files| && files[i].base >= base
  }

  function FileByBase(files: seq<File>, base: int): (i: nat)
    ensures i <= |files|
  {
    Search.Search(|files|, BasedAfter(files, base))
  }

  lemma {:induction false} NextsRise(files: seq<File>, i: nat, j: nat)
    requires FilesOk(files) && i <= j < |files|
    ensures files[i].base <= NextOffset(files[i]) <= NextOffset(files[j])
  {
  }

  lemma {:induction false} FileIndexIs(files: seq<File>, offset: int)
    requires FilesOk(files)
    ensures forall i :: 0 <= i < |files| ==> (NextOffset(files[i]) > offset <==> FileIndex(files, offset) <= i)
  {
    var f := Passing(files, offset);
    forall i: nat, j: nat | i <= j < |files| && f(i) ensures f(j) {
      NextsRise(files, i, j);
    }
    SearchFindsFirst(|files|, f);
    assert forall i :: 0 <= i < |files| ==> (f(i) <==> NextOffset(files[i]) > offset);
  }

  lemma {:induction false} EntryIndexIs(f: File, offset: int)
    requires FileOk(f)
    ensures forall k :: 0 <= k < |f.msgs| ==> (f.msgs[k].offset >= offset <==> EntryIndex(f.msgs, offset) <= k)
  {
  }

  lemma {:induction false} NextFile(files: seq<File>, i: nat)
    requires FilesOk(files) && i < |files|
    ensures FileByBase(files, files[i].base + 1) == i + 1
  {
  }

  /** The lookups find the message where it is. */
  lemma {:induction false} LookupFinds(files: seq<File>, offset: int, j: nat, m: nat)
    requires FilesOk(files) && Located(files, offset, j, m)
    ensures FileIndex(files, offset) == j && EntryIndex(files[j].msgs, offset) == m
  {
    FileIndexIs(files, offset);
    assert FileOk(files[j]);
    EntryIndexIs(files[j], offset);
    assert NextOffset(files[j]) > offset;
    assert forall i :: 0 <= i < j ==> NextOffset(files[i]) <= files[j].base <= offset;
  }

  // ---------------------------------------------------------------- positions

  lemma {:induction false} MessageAt(f: File, k: nat)
    requires k < |f.msgs|
    ensures Position(f, k + 1) == Position(f, k) + |f.msgs[k].bytes| <= |Content(f)|
    ensures Content(f)[Position(f, k)..Position(f, k + 1)] == f.msgs[k].bytes
  {
    FlatAround(Chunks(f.msgs), k);
  }

  lemma {:induction false} PositionRises(f: File, k: nat, m: nat)
    requires k <= m <= |f.msgs|
    ensures Position(f, k) <= Position(f, m)
    decreases m - k
  {
    if k == m {
    } else {
      MessageAt(f, m - 1);
      PositionRises(f, k, m - 1);
    }
  }

  lemma {:induction false} EndPosition(f: File)
    ensures Position(f, |f.msgs|) == |Content(f)|
  {
    assert Chunks(f.msgs)[..|f.msgs|] == Chunks(f.msgs);
  }

  lemma {:induction false} PositionKept(f: File, g: File, k: nat)
    requires f.msgs <= g.msgs && k <= |f.msgs|
    ensures Position(f, k) == Position(g, k)
  {
    assert Chunks(f.msgs)[..k] == Chunks(g.msgs)[..k];
  }

  lemma {:induction false} CountKept(a: seq<File>, b: seq<File>, i: nat)
    requires Grows(a, b) && i < |a|
    ensures Count(a, i) == Count(b, i)
  {
    if i == 0 {
    } else {
      CountKept(a, b, i - 1);
    }
  }

  lemma {:induction false} CountRises(files: seq<File>, i: nat, j: nat)
    requires i <= j <= |files|
    ensures Count(files, i) <= Count(files, j)
    ensures i < j ==> Count(files, i) + |files[i].msgs| <= Count(files, j)
    decreases j - i
  {
    if i == j {
    } else {
      CountRises(files, i, j - 1);
    }
  }

  // ---------------------------------------------------------------- where a reader stands

  /** The reader's next message is number `k` of its segment, `into` bytes of which it has read. */
  ghost predicate StandsAt(files: seq<File>, seg: nat, pos: nat, k: nat, into: nat) {
    && seg < |files| && k <= |files[seg].msgs| &&
        (into > 0 ==> k < |files[seg].msgs| && into <= |files[seg].msgs[k].bytes|)
    && pos == Position(files[seg], k) + into
  }

  /** The watermark it knows is message `m` of segment `hwSeg`, which ends at `hwPos`. */
  ghost predicate KnowsHW(files: seq<File>, hwSeg: nat, hwPos: nat, hw: int, m: nat) {
    Located(files, hw, hwSeg, m) && hwPos == Position(files[hwSeg], m + 1)
  }

  /** The reader has not passed the watermark; a message it has begun is at most the watermark. */
  predicate Behind(seg: nat, k: nat, into: nat, hwSeg: nat, m: nat) {
    seg < hwSeg || (seg == hwSeg && if into == 0 then k <= m + 1 else k <= m)
  }

  lemma {:induction false} StandsKept(a: seq<File>, b: seq<File>, seg: nat, pos: nat, k: nat, into: nat)
    requires Grows(a, b) && StandsAt(a, seg, pos, k, into)
    ensures StandsAt(b, seg, pos, k, into)
  {
    PositionKept(a[seg], b[seg], k);
  }

  lemma {:induction false} KnowsKept(a: seq<File>, b: seq<File>, hwSeg: nat, hwPos: nat, hw: int, m: nat)
    requires Grows(a, b) && KnowsHW(a, hwSeg, hwPos, hw, m)
    ensures KnowsHW(b, hwSeg, hwPos, hw, m)
  {
    PositionKept(a[hwSeg], b[hwSeg], m + 1);
  }

  /** A later watermark is no earlier in the log. */
  lemma {:induction false} HWRises(files: seq<File>, hw: int, j: nat, m: nat, later: int, j': nat, m': nat)
    requires FilesOk(files) && Located(files, hw, j, m) && Located(files, later, j', m') && hw <= later
    ensures j < j' || (j == j' && m <= m')
  {
  }

  // ---------------------------------------------------------------- one turn of the read loop

  /** Reading up to `want` bytes of a file: fewer come with an end-of-file error. */
  function ReadAt(content: seq<Byte>, pos: nat, want: nat): (r: (seq<Byte>, bool)) {
    if pos + want <= |content| then (content[pos..pos + want], false)
    else (if pos <= |content| then content[pos..] else [], true)
  }

  /** How much is asked for: in the segment of the watermark, no more than up to it. */
  function Limit(seg: nat, pos: nat, hwSeg: nat, hwPos: nat, len: nat): int {
    if seg == hwSeg && hwPos - pos < len then hwPos - pos else len
  }

  lemma {:induction false} SubSlice<T>(s: seq<T>, at: nat, n: nat, from: nat, len: nat)
    requires at + n <= |s| && from + len <= n
    ensures s[at..at + n][from..from + len] == s[at + from..at + from + len]
  {
    var part := s[at..at + n];
    assert forall i :: 0 <= i < n ==> part[i] == s[at + i];
    var a, b := part[from..from + len], s[at + from..at + from + len];
    assert forall i :: 0 <= i < len ==> a[i] == part[from + i] == s[at + (from + i)] == b[i];
  }

  /** A message begun or about to be is available as a whole. */
  lemma {:induction false} Serves(files: seq<File>, seg: nat, pos: nat, k: nat, into: nat, hwSeg: nat, hwPos: nat,
        hw: int, m: nat, len: nat)
    requires StandsAt(files, seg, pos, k, into) && KnowsHW(files, hwSeg, hwPos, hw, m)
    requires k < |files[seg].msgs| && (seg < hwSeg || (seg == hwSeg && k <= m)) &&
             into + len <= |files[seg].msgs[k].bytes|
    ensures Limit(seg, pos, hwSeg, hwPos, len) == len
    ensures ReadAt(Content(files[seg]), pos, len) == (files[seg].msgs[k].bytes[into..into + len], false)
    ensures StandsAt(files, seg, pos + len, k, into + len)
  {
    var f := files[seg];
    MessageAt(f, k);
    SubSlice(Content(f), Position(f, k), |f.msgs[k].bytes|, into, len);
    if seg == hwSeg {
      PositionRises(f, k + 1, m + 1);
    }
  }

  /** Past the end of its segment, a reader before the watermark's segment meets the end of the file. */
  lemma {:induction false} MeetsEnd(files: seq<File>, seg: nat, pos: nat, k: nat, hwSeg: nat, hwPos: nat, len: nat)
    requires StandsAt(files, seg, pos, k, 0) && seg < hwSeg && k == |files[seg].msgs| && 0 < len
    ensures Limit(seg, pos, hwSeg, hwPos, len) == len && ReadAt(Content(files[seg]), pos, len) == ([], true)
  {
    EndPosition(files[seg]);
    assert Content(files[seg])[pos..] == [];
  }

  /** At the watermark nothing is asked for. */
  lemma {:induction false} MeetsHW(files: seq<File>, seg: nat, pos: nat, k: nat, hwSeg: nat, hwPos: nat, hw: int,
        m: nat, len: nat)
    requires StandsAt(files, seg, pos, k, 0) && KnowsHW(files, hwSeg, hwPos, hw, m) && seg == hwSeg && k == m + 1
    ensures Limit(seg, pos, hwSeg, hwPos, len) == 0 && ReadAt(Content(files[seg]), pos, 0) == ([], false)
  {
    EndPosition(files[seg]);
    PositionRises(files[seg], k, |files[seg].msgs|);
    assert Content(files[seg])[pos..pos + 0] == [];
  }

  lemma {:induction false} HWFound(files: seq<File>, hw: int) returns (m: nat)
    requires FilesOk(files) && Present(files, hw)
    ensures HWPos(files, hw).Some? && KnowsHW(files, HWPos(files, hw).value.0, HWPos(files, hw).value.1, hw, m)
  {
    var j: nat, i: nat :| Located(files, hw, j, i);
    m := i;
    LookupFinds(files, hw, j, m);
    MessageAt(files[j], m);
  }

  lemma {:induction false} NewHW(s: Snapshot, seg: nat, k: nat, hwSeg: nat, hw: int, m0: nat) returns (m: nat)
    requires SnapshotOk(s) && Located(s.files, hw, hwSeg, m0) && hw < s.hw && Behind(seg, k, 0, hwSeg, m0)
    ensures HWPos(s.files, s.hw).Some?
    ensures var at := HWPos(s.files, s.hw).value;
            && KnowsHW(s.files, at.0, at.1, s.hw, m) && Behind(seg, k, 0, at.0, m) && !(seg == at.0 && k == m + 1)
  {
    m := HWFound(s.files, s.hw);
    var j := HWPos(s.files, s.hw).value.0;
    HWRises(s.files, hw, hwSeg, m0, s.hw, j, m);
    assert j == hwSeg ==> m != m0;
  }

  class CommittedReader {
    /** False while no segment was chosen, because the reader was created past the watermark. */
    var started: bool
    var seg: nat
    var pos: nat
    var hwSeg: nat
    var hwPos: nat
    var hw: int
    /** Which message of its segment comes next, and which message of its segment the known watermark is. */
    ghost var next: nat
    ghost var top: nat
    /** Where the watermark was before a segment was chosen. */
    ghost var topSeg: nat

    ghost predicate Ready(files: seq<File>, into: nat)
      reads this
    {
      started && StandsAt(files, seg, pos, next, into) && KnowsHW(files, hwSeg, hwPos, hw, top) &&
          Behind(seg, next, into, hwSeg, top)
    }

    /** At the watermark: nothing left to read. */
    ghost predicate CaughtUp()
      reads this
    {
      seg == hwSeg && next == top + 1
    }

    /** Waits until the watermark differs from the one known, or gives up at the last sight of the log. */
    method AwaitHW(env: seq<Snapshot>, t: nat) returns (u: nat, moved: bool)
      requires t < |env|
      ensures t <= u < |env|
      ensures if moved then env[u].hw != hw else u == |env| - 1 && env[u].hw == hw
    {
      u := t;
      while env[u].hw == hw
        invariant t <= u < |env|
        decreases |env| - u
      {
        if u + 1 == |env| {
          return u, false;
        }
        u := u + 1;
      }
      return u, true;
    }

    /** Reads what is there, up to `len` bytes: all of them, none at the end of the segment, or none at the
        watermark. */
    method TryRead(len: nat, env: seq<Snapshot>, t: nat, ghost into: nat) returns (chunk: seq<Byte>, eof: bool)
      requires History(env) && t < |env| && Ready(env[t].files, into)
      requires into == 0 ==> len == HEADER_LEN
      requires into > 0 ==> into + len == |env[t].files[seg].msgs[next].bytes|
      ensures var f := env[t].files[seg];
              if next < |f.msgs| && (seg < hwSeg || next <= top) then
                !eof && into + len <= |f.msgs[next].bytes| && chunk == f.msgs[next].bytes[into..into + len] &&
                    StandsAt(env[t].files, seg, pos + len, next, into + len)
              else
                into == 0 && chunk == [] && if seg < hwSeg then eof && next == |f.msgs| else !eof && CaughtUp()
    {
      ghost var files := env[t].files;
      if next < |files[seg].msgs| && (seg < hwSeg || next <= top) {
        Framed(env, t, seg, next);
        Serves(files, seg, pos, next, into, hwSeg, hwPos, hw, top, len);
      } else if seg < hwSeg {
        MeetsEnd(files, seg, pos, next, hwSeg, hwPos, len);
      } else {
        MeetsHW(files, seg, pos, next, hwSeg, hwPos, hw, top, len);
      }
      var lim := Limit(seg, pos, hwSeg, hwPos, len);
      var r := ReadAt(Content(env[t].files[seg]), pos, lim);
      return r.0, r.1;
    }

    /** At the watermark: waits for it to move and looks the new one up. */
    method Sync(env: seq<Snapshot>, t: nat) returns (u: nat, moved: bool)
      requires History(env) && t < |env| && Ready(env[t].files, 0) && hw <= env[t].hw && CaughtUp()
      modifies this`hw, this`hwSeg, this`hwPos, this`top
      ensures t <= u < |env| && Ready(env[u].files, 0) && hw == env[u].hw
      ensures Count(env[u].files, seg) == Count(env[t].files, seg)
      ensures if moved then !CaughtUp() && (u == t ==> old(hw) != hw) else u == |env| - 1 && CaughtUp()
    {
      u, moved := AwaitHW(env, t);
      StaysReady(env, t, u, seg, pos, next, hwSeg, hwPos, hw, top);
      if moved {
        var at, p, m := FindHW(env, u, seg, next, hwSeg, hw, top);
        hw, hwSeg, hwPos, top := env[u].hw, at, p, m;
      }
    }

    /** The read loop, for a header (`into` zero) or the rest of a message begun. */
    method Read(len: nat, env: seq<Snapshot>, t: nat, ghost into: nat) returns (r: Option<seq<Byte>>, u: nat)
      requires History(env) && t < |env| && Ready(env[t].files, into) && hw <= env[t].hw
      requires into == 0 ==> len == HEADER_LEN
      requires into > 0 ==> into + len == |env[t].files[seg].msgs[next].bytes|
      modifies this
      ensures t <= u < |env| && seg < |env[u].files| && hw <= env[u].hw
      ensures Count(env[u].files, seg) + next == Count(env[t].files, old(seg)) + old(next)
      ensures r.Some? ==>
              Ready(env[u].files, into + len) && r.value == env[u].files[seg].msgs[next].bytes[into..into + len]
      ensures r.None? ==> Ready(env[u].files, 0) && into == 0 && u == |env| - 1 && hw == env[u].hw && CaughtUp()
      ensures into > 0 ==> r.Some? && u == t && seg == old(seg) && next == old(next)
    {
      u := t;
      while true
        invariant t <= u < |env| && Ready(env[u].files, into) && hw <= env[u].hw
        invariant Count(env[u].files, seg) + next == Count(env[t].files, old(seg)) + old(next)
        invariant into > 0 ==> u == t && seg == old(seg) && next == old(next)
        decreases |env| - u, |env[u].files| - seg, if hw == env[u].hw then 0 else 1
      {
        var chunk, eof := TryRead(len, env, u, into);
        pos := pos + |chunk|;
        if |chunk| == len {
          return Some(chunk), u;
        }
        if eof {
          seg, pos, next := NextSegment(env, u, seg, next);
          continue;
        }
        var moved;
        u, moved := Sync(env, u);
        if !moved {
          return None, u;
        }
      }
    }

    /** Before the first read nothing is chosen; afterwards the reader stands before message number `c`. */
    ghost predicate Rests(s: Snapshot, c: nat)
      reads this
    {
      && hw <= s.hw
      && if started then Ready(s.files, 0) && c == Count(s.files, seg) + next
         else AfterHW(s.files, topSeg, hw, top, c)
    }

    /** After the header, as much as it announces. */
    method ReadPayload(header: seq<Byte>, env: seq<Snapshot>, t: nat, ghost c: nat) returns (bytes: seq<Byte>)
      requires History(env) && t < |env| && Ready(env[t].files, HEADER_LEN) && hw <= env[t].hw
      requires c == Count(env[t].files, seg) + next && header == env[t].files[seg].msgs[next].bytes[0..HEADER_LEN]
      modifies this
      ensures started && Rests(env[t], c + 1) && Delivers(env[t], c, bytes)
    {
      Framed(env, t, seg, next);
      SizeInHeader(env[t].files[seg].msgs[next]);
      var size := GetInt32(header, 24);
      var payload, u := Read(size, env, t, HEADER_LEN);
      bytes := header + payload.value;
      Delivered(env, t, seg, next, hwSeg, hw, top);
      MessageAt(env[t].files[seg], next);
      next := next + 1;
    }

    /** The two reads of a started reader: the header, then the rest. */
    method ReadWhole(env: seq<Snapshot>, t: nat, ghost c: nat) returns (r: Option<seq<Byte>>, u: nat)
      requires History(env) && t < |env| && started && Rests(env[t], c)
      modifies this
      ensures t <= u < |env| && started
      ensures r.Some? ==> Rests(env[u], c + 1) && Delivers(env[u], c, r.value)
      ensures r.None? ==> Rests(env[u], c) && u == |env| - 1 && hw == env[u].hw && CaughtUp()
    {
      var header;
      header, u := Read(HEADER_LEN, env, t, 0);
      if header.None? {
        return None, u;
      }
      var bytes := ReadPayload(header.value, env, u, c);
      r := Some(bytes);
    }

    constructor (started: bool, seg: nat, pos: nat, hwSeg: nat, hwPos: nat, hw: int, ghost next: nat, ghost top: nat,
          ghost topSeg: nat)
      ensures this.started == started && this.seg == seg && this.pos == pos && this.next == next
      ensures this.hwSeg == hwSeg && this.hwPos == hwPos && this.hw == hw && this.top == top && this.topSeg == topSeg
    {
      this.started, this.seg, this.pos, this.next := started, seg, pos, next;
      this.hwSeg, this.hwPos, this.hw, this.top, this.topSeg := hwSeg, hwPos, hw, top, topSeg;
    }

    /** A reader created past the watermark waits for it to move and begins just after the one it knew. */
    method Start(env: seq<Snapshot>, t: nat, ghost c: nat) returns (u: nat, ok: bool)
      requires History(env) && t < |env| && !started && Rests(env[t], c)
      modifies this
      ensures t <= u < |env| && Rests(env[u], c) && started == ok
      ensures !ok ==> u == |env| - 1 && hw == env[u].hw
    {
      var moved;
      u, moved := AwaitHW(env, t);
      StillFirst(env, t, u, topSeg, hw, top, c);
      if !moved {
        return u, false;
      }
      var from := hw + 1;
      var at, p, m := NewestHW(env, u);
      seg, pos, next := Lookup(env, u, from, at, m, c);
      hw, hwSeg, hwPos, top, started := env[u].hw, at, p, m, true;
      return u, true;
    }

    /**
     * One message: the next committed one in the log, or nothing when the log gives no more,
     * and then everything committed was returned before.
     */
    method ReadMessage(env: seq<Snapshot>, t: nat, ghost c: nat) returns (r: Option<seq<Byte>>, u: nat)
      requires History(env) && t < |env| && Rests(env[t], c)
      modifies this
      ensures t <= u < |env|
      ensures r.Some? ==> Rests(env[u], c + 1) && Delivers(env[u], c, r.value)
      ensures r.None? ==> Rests(env[u], c) && u == |env| - 1 && Exhausted(env[u], c)
    {
      u := t;
      if !started {
        var ok;
        u, ok := Start(env, t, c);
        if !ok {
          NothingMore(env, u, topSeg, hw, top, c);
          return None, u;
        }
      }
      r, u := ReadWhole(env, u, c);
      if r.None? {
        HWNotNegative(env, u, hwSeg, hw, top);
        NothingMore(env, u, hwSeg, hw, top, c);
      }
    }
  }

  /** Message number `c` is the one after the watermark, or the first one when there is no watermark yet. */
  ghost predicate AfterHW(files: seq<File>, hwSeg: nat, hw: int, top: nat, c: nat) {
    -1 <= hw && if hw == -1 then c == 0 else Located(files, hw, hwSeg, top) && c == Count(files, hwSeg) + top + 1
  }

  /** Every committed message comes before number `c`. */
  ghost predicate Exhausted(s: Snapshot, c: nat) {
    c <= |All(s.files)| && forall n :: c <= n < |All(s.files)| ==> All(s.files)[n].offset > s.hw
  }

  /** Message number `c` is the first one with an offset of at least `from`. */
  ghost predicate FirstAt(files: seq<File>, from: int, c: nat) {
    c <= |All(files)| && forall n :: 0 <= n < |All(files)| ==> (All(files)[n].offset >= from <==> c <= n)
  }

  lemma {:induction false} FirstUnique(files: seq<File>, from: int, c: nat, d: nat, n: nat)
    requires FirstAt(files, from, c) && FirstAt(files, from, d) && n < |All(files)| && All(files)[n].offset >= from
    ensures c == d
  {
    assert c <= n && d <= n;
    assert All(files)[c].offset >= from && All(files)[d].offset >= from;
  }

  /** The message after the watermark is the first one past it. */
  lemma {:induction false} FirstPastHW(files: seq<File>, hw: int, j: nat, m: nat)
    requires FilesOk(files) && Located(files, hw, j, m)
    ensures FirstAt(files, hw + 1, Count(files, j) + m + 1)
  {
    NumberOf(files, j, m);
    forall n: nat | n < |All(files)| ensures All(files)[n].offset >= hw + 1 <==> Count(files, j) + m + 1 <= n {
      PastHW(files, hw, j, m, n);
    }
  }

  lemma {:induction false} AfterIsFirst(files: seq<File>, hwSeg: nat, hw: int, top: nat, c: nat)
    requires FilesOk(files) && AfterHW(files, hwSeg, hw, top, c)
    ensures FirstAt(files, hw + 1, c)
  {
    if hw == -1 {
      FirstFromZero(files);
    } else {
      FirstPastHW(files, hw, hwSeg, top);
    }
  }

  lemma {:induction false} NothingMore(env: seq<Snapshot>, t: nat, hwSeg: nat, hw: int, top: nat, c: nat)
    requires History(env) && t < |env| && hw == env[t].hw && AfterHW(env[t].files, hwSeg, hw, top, c)
    ensures Exhausted(env[t], c)
  {
    assert Sight(env, t);
    AfterIsFirst(env[t].files, hwSeg, hw, top, c);
  }

  lemma {:induction false} HWNotNegative(env: seq<Snapshot>, t: nat, hwSeg: nat, hw: int, top: nat)
    requires History(env) && t < |env| && Located(env[t].files, hw, hwSeg, top)
    ensures 0 <= hw
  {
    assert Sight(env, t);
    assert FileOk(env[t].files[hwSeg]);
  }

  lemma {:induction false} StillFirst(env: seq<Snapshot>, t: nat, u: nat, hwSeg: nat, hw: int, top: nat, c: nat)
    requires History(env) && t <= u < |env| && hw <= env[t].hw && AfterHW(env[t].files, hwSeg, hw, top, c)
    ensures AfterHW(env[u].files, hwSeg, hw, top, c) && hw <= env[u].hw && FirstAt(env[u].files, hw + 1, c)
  {
    assert Later(env, t, u) && Sight(env, u);
    if hw != -1 {
      CountKept(env[t].files, env[u].files, hwSeg);
    }
    AfterIsFirst(env[u].files, hwSeg, hw, top, c);
  }

  method NewestHW(env: seq<Snapshot>, t: nat) returns (at: nat, p: nat, ghost m: nat)
    requires History(env) && t < |env| && env[t].hw != -1
    ensures KnowsHW(env[t].files, at, p, env[t].hw, m)
  {
    assert Sight(env, t);
    m := HWFound(env[t].files, env[t].hw);
    var found := HWPos(env[t].files, env[t].hw);
    at, p := found.value.0, found.value.1;
  }

  /** The segment found is not empty and ends at or past the offset; those before it end before. */
  lemma {:induction false} FilePlace(files: seq<File>, from: int, hw: int, at: nat, m: nat)
    requires FilesOk(files) && Located(files, hw, at, m) && from <= hw
    ensures var i := FileIndex(files, from);
            && i <= at && files[i].msgs != [] && NextOffset(files[i]) > from
            && forall j :: 0 <= j < i ==> NextOffset(files[j]) <= from
  {
    FileIndexIs(files, from);
    NextAfter(files[at], m);
    assert files[at].msgs != [] && NextOffset(files[at]) > hw;
  }

  lemma {:induction false} NextAfter(f: File, k: nat)
    requires FileOk(f) && k < |f.msgs|
    ensures NextOffset(f) > f.msgs[k].offset
  {
  }

  lemma {:induction false} EntryPlace(f: File, from: int)
    requires FileOk(f) && f.msgs != [] && NextOffset(f) > from
    ensures EntryIndex(f.msgs, from) < |f.msgs| && f.msgs[EntryIndex(f.msgs, from)].offset >= from
    ensures EntryIndex(f.msgs, from) > 0 ==> f.msgs[EntryIndex(f.msgs, from) - 1].offset < from
  {
  }

  lemma {:induction false} PlaceIsFirst(files: seq<File>, from: int, i: nat, k: nat)
    requires FilesOk(files) && i < |files| && k < |files[i].msgs| && files[i].msgs[k].offset >= from
    requires k > 0 ==> files[i].msgs[k - 1].offset < from
    requires forall j :: 0 <= j < i ==> NextOffset(files[j]) <= from
    ensures FirstAt(files, from, Count(files, i) + k)
  {
    NumberOf(files, i, k);
    forall n: nat | n < |All(files)| ensures All(files)[n].offset >= from <==> Count(files, i) + k <= n {
      var j, l := Place(files, n);
      OrderedPlaces(files, from, i, k, j, l);
    }
  }

  lemma {:induction false} OrderedPlaces(files: seq<File>, from: int, i: nat, k: nat, j: nat, l: nat)
    requires FilesOk(files) && i < |files| && k < |files[i].msgs| && files[i].msgs[k].offset >= from
    requires k > 0 ==> files[i].msgs[k - 1].offset < from
    requires forall j :: 0 <= j < i ==> NextOffset(files[j]) <= from
    requires j < |files| && l < |files[j].msgs|
    ensures files[j].msgs[l].offset >= from <==> Count(files, i) + k <= Count(files, j) + l
  {
    assert FileOk(files[i]) && FileOk(files[j]);
    PlacesRise(files, j, l, i, k);
    if j < i {
      CountRises(files, j, i);
    }
  }

  lemma {:induction false} NotPast(files: seq<File>, hw: int, at: nat, m: nat, seg: nat, k: nat, from: int)
    requires FilesOk(files) && Located(files, hw, at, m) && from <= hw && seg < |files| && k < |files[seg].msgs|
    requires FirstAt(files, from, Count(files, seg) + k)
    ensures Behind(seg, k, 0, at, m)
  {
    NumberOf(files, at, m);
    assert Count(files, seg) + k <= Count(files, at) + m;
    if at < seg {
      CountRises(files, at, seg);
    }
  }

  lemma {:induction false} FirstFromZero(files: seq<File>)
    requires FilesOk(files)
    ensures FirstAt(files, 0, 0)
  {
    forall n: nat | n < |All(files)| ensures All(files)[n].offset >= 0 {
      var i, k := Place(files, n);
      assert FileOk(files[i]);
    }
  }

  /** Message number `c` is committed and is what was returned. */
  ghost predicate Delivers(s: Snapshot, c: nat, bytes: seq<Byte>) {
    c < |All(s.files)| && All(s.files)[c].bytes == bytes && All(s.files)[c].offset <= s.hw
  }

  lemma {:induction false} SizeInHeader(m: Stored)
    requires WellFramed(m)
    ensures GetInt32(m.bytes[..HEADER_LEN], 24) == |m.bytes| - HEADER_LEN
    ensures m.bytes[0..HEADER_LEN] == m.bytes[..HEADER_LEN]
    ensures m.bytes[..HEADER_LEN] + m.bytes[HEADER_LEN..|m.bytes|] == m.bytes
  {
    GetIsUInt(m.bytes, 24, 4);
    GetIsUInt(m.bytes[..HEADER_LEN], 24, 4);
    assert m.bytes[..HEADER_LEN][24..28] == m.bytes[24..28];
  }

  lemma {:induction false} Delivered(env: seq<Snapshot>, t: nat, seg: nat, k: nat, hwSeg: nat, hw: int, top: nat)
    requires History(env) && t < |env| && seg < |env[t].files| && k < |env[t].files[seg].msgs|
    requires Located(env[t].files, hw, hwSeg, top) && (seg < hwSeg || (seg == hwSeg && k <= top)) && hw <= env[t].hw
    ensures Delivers(env[t], Count(env[t].files, seg) + k, env[t].files[seg].msgs[k].bytes)
  {
    var files := env[t].files;
    assert Sight(env, t);
    NumberOf(files, seg, k);
    PlacesRise(files, hwSeg, top, seg, k);
    if seg < hwSeg {
      CountRises(files, seg, hwSeg);
    }
  }

  lemma {:induction false} Framed(env: seq<Snapshot>, t: nat, seg: nat, k: nat)
    requires History(env) && t < |env| && seg < |env[t].files| && k < |env[t].files[seg].msgs|
    ensures WellFramed(env[t].files[seg].msgs[k])
  {
    assert Sight(env, t);
    assert FileOk(env[t].files[seg]);
  }

  lemma {:induction false} NextFileAt(env: seq<Snapshot>, t: nat, seg: nat)
    requires History(env) && t < |env| && seg < |env[t].files|
    ensures FileByBase(env[t].files, env[t].files[seg].base + 1) == seg + 1
  {
    assert Sight(env, t);
    NextFile(env[t].files, seg);
  }

  lemma {:induction false} AtBeginning(files: seq<File>, seg: nat)
    requires seg < |files|
    ensures StandsAt(files, seg, 0, 0, 0)
  {
  }

  /** The segment after one that was read to its end. */
  method NextSegment(env: seq<Snapshot>, t: nat, seg: nat, ghost k: nat) returns (next: nat, pos: nat, ghost first: nat)
    requires History(env) && t < |env| && seg + 1 < |env[t].files| && k == |env[t].files[seg].msgs|
    ensures next == seg + 1 && pos == 0 && first == 0
    ensures StandsAt(env[t].files, next, pos, first, 0)
    ensures Count(env[t].files, next) + first == Count(env[t].files, seg) + k
  {
    NextFileAt(env, t, seg);
    AtBeginning(env[t].files, seg + 1);
    next := FileByBase(env[t].files, env[t].files[seg].base + 1);
    pos, first := 0, 0;
  }

  lemma {:induction false} StaysReady(env: seq<Snapshot>, t: nat, u: nat, seg: nat, pos: nat, k: nat, hwSeg: nat,
        hwPos: nat, hw: int, m: nat)
    requires History(env) && t <= u < |env| && hw <= env[t].hw
    requires StandsAt(env[t].files, seg, pos, k, 0) && KnowsHW(env[t].files, hwSeg, hwPos, hw, m)
    ensures StandsAt(env[u].files, seg, pos, k, 0) && KnowsHW(env[u].files, hwSeg, hwPos, hw, m)
    ensures Count(env[u].files, seg) == Count(env[t].files, seg) && hw <= env[u].hw
  {
    assert Later(env, t, u);
    StandsKept(env[t].files, env[u].files, seg, pos, k, 0);
    KnowsKept(env[t].files, env[u].files, hwSeg, hwPos, hw, m);
    CountKept(env[t].files, env[u].files, seg);
  }

  /** Looks the current watermark up; there is something to read before it. */
  method FindHW(env: seq<Snapshot>, t: nat, ghost seg: nat, ghost k: nat, ghost hwSeg: nat, ghost hw: int,
        ghost m0: nat)
    returns (at: nat, p: nat, ghost m: nat)
    requires History(env) && t < |env| && Located(env[t].files, hw, hwSeg, m0) && hw < env[t].hw &&
             Behind(seg, k, 0, hwSeg, m0)
    ensures KnowsHW(env[t].files, at, p, env[t].hw, m) && Behind(seg, k, 0, at, m) && !(seg == at && k == m + 1)
  {
    assert Sight(env, t);
    m := NewHW(env[t], seg, k, hwSeg, hw, m0);
    var found := HWPos(env[t].files, env[t].hw);
    at, p := found.value.0, found.value.1;
  }

  // ---------------------------------------------------------------- the flat log

  function Runs(files: seq<File>): (rs: seq<seq<Stored>>)
    ensures |rs| == |files| && forall i :: 0 <= i < |files| ==> rs[i] == files[i].msgs
  {
    seq(|files|, i requires 0 <= i < |files| => files[i].msgs)
  }

  /** All messages of the log, in order. */
  function All(files: seq<File>): seq<Stored> {
    Flat(Runs(files))
  }

  lemma {:induction false} CountIsStart(files: seq<File>, i: nat)
    requires i <= |files|
    ensures Count(files, i) == Start(Runs(files), i) <= |All(files)|
  {
    if i == 0 {
      assert Runs(files)[..0] == [];
    } else {
      CountIsStart(files, i - 1);
      FlatAround(Runs(files), i - 1);
    }
  }

  lemma {:induction false} NumberOf(files: seq<File>, i: nat, k: nat)
    requires i < |files| && k < |files[i].msgs|
    ensures Count(files, i) + k < |All(files)| && All(files)[Count(files, i) + k] == files[i].msgs[k]
  {
    CountIsStart(files, i);
    var rs := Runs(files);
    FlatAround(rs, i);
    assert All(files)[Start(rs, i)..Start(rs, i + 1)][k] == All(files)[Start(rs, i) + k];
  }

  /** Every number is that of a message of some file. */
  lemma {:induction false} PlaceOf(files: seq<File>, n: nat, top: nat) returns (i: nat, k: nat)
    requires top <= |files| && n < Count(files, top)
    ensures i < top && k < |files[i].msgs| && n == Count(files, i) + k
  {
    if Count(files, top - 1) <= n {
      i, k := top - 1, n - Count(files, top - 1);
    } else {
      i, k := PlaceOf(files, n, top - 1);
    }
  }

  lemma {:induction false} AllCount(files: seq<File>)
    ensures Count(files, |files|) == |All(files)|
  {
    CountIsStart(files, |files|);
    assert Runs(files)[..|files|] == Runs(files);
  }

  lemma {:induction false} Place(files: seq<File>, n: nat) returns (i: nat, k: nat)
    requires n < |All(files)|
    ensures i < |files| && k < |files[i].msgs| && n == Count(files, i) + k && All(files)[n] == files[i].msgs[k]
  {
    AllCount(files);
    i, k := PlaceOf(files, n, |files|);
    NumberOf(files, i, k);
  }

  /** The messages after place (`i`, `k`) are those with larger offsets. */
  lemma {:induction false} PlacesRise(files: seq<File>, i: nat, k: nat, j: nat, l: nat)
    requires FilesOk(files) && i < |files| && k < |files[i].msgs| && j < |files| && l < |files[j].msgs|
    ensures Count(files, i) + k < Count(files, j) + l <==> files[i].msgs[k].offset < files[j].msgs[l].offset
  {
    assert FileOk(files[i]) && FileOk(files[j]);
    if i < j {
      CountRises(files, i, j);
    } else if j < i {
      CountRises(files, j, i);
    }
  }

  /** Message number `n` is past the watermark exactly when it comes after the watermark's message. */
  lemma {:induction false} PastHW(files: seq<File>, hw: int, j: nat, m: nat, n: nat)
    requires FilesOk(files) && Located(files, hw, j, m) && n < |All(files)|
    ensures All(files)[n].offset > hw <==> n > Count(files, j) + m
  {
    var i, k := Place(files, n);
    PlacesRise(files, j, m, i, k);
  }

  // ---------------------------------------------------------------- creating a reader and reading on

  lemma {:induction false} KnownHW(env: seq<Snapshot>, t: nat) returns (at: nat, top: nat, c: nat)
    requires History(env) && t < |env|
    ensures AfterHW(env[t].files, at, env[t].hw, top, c) && FirstAt(env[t].files, env[t].hw + 1, c)
  {
    var files, hw := env[t].files, env[t].hw;
    assert Sight(env, t);
    if hw == -1 {
      at, top, c := 0, 0, 0;
    } else {
      var j: nat, m: nat :| Located(files, hw, j, m);
      at, top, c := j, m, Count(files, j) + m + 1;
    }
    AfterIsFirst(files, at, hw, top, c);
  }

  /** Both binary searches together: the first message at or past the offset, which is not past the watermark. */
  lemma {:induction false} SearchesFind(files: seq<File>, from: int, hw: int, at: nat, m: nat)
    requires FilesOk(files) && Located(files, hw, at, m) && from <= hw
    ensures FileIndex(files, from) < |files|
    ensures var seg := FileIndex(files, from); var k := EntryIndex(files[seg].msgs, from);
            FirstAt(files, from, Count(files, seg) + k) && Behind(seg, k, 0, at, m) &&
                (from < files[seg].base ==> k == 0)
  {
    FilePlace(files, from, hw, at, m);
    var seg := FileIndex(files, from);
    EntryPlace(files[seg], from);
    var k := EntryIndex(files[seg].msgs, from);
    PlaceIsFirst(files, from, seg, k);
    NotPast(files, hw, at, m, seg, k, from);
    BeforeBase(files[seg], from, files[seg].base, k);
  }

  lemma {:induction false} BeforeBase(f: File, from: int, base: int, k: nat)
    requires base == f.base && k < |f.msgs| && FileOk(f) && (k > 0 ==> f.msgs[k - 1].offset < from)
    ensures from < base ==> k == 0
  {
  }

  /** The first segment reaching past the offset; its beginning if the offset is before it. */
  method Begin(env: seq<Snapshot>, t: nat, from: int, ghost at: nat, ghost m: nat)
      returns (seg: nat, pos: nat, ghost k: nat, ghost c: nat)
    requires History(env) && t < |env| && Located(env[t].files, env[t].hw, at, m) && from <= env[t].hw
    ensures StandsAt(env[t].files, seg, pos, k, 0) && Behind(seg, k, 0, at, m)
    ensures c == Count(env[t].files, seg) + k && FirstAt(env[t].files, from, c)
  {
    assert Sight(env, t);
    SearchesFind(env[t].files, from, env[t].hw, at, m);
    seg := FileIndex(env[t].files, from);
    if env[t].files[seg].base <= from {
      var entry := EntryIndex(env[t].files[seg].msgs, from);
      pos, k := Position(env[t].files[seg], entry), entry;
    } else {
      AtBeginning(env[t].files, seg);
      pos, k := 0, 0;
    }
    c := Count(env[t].files, seg) + k;
  }

  /** The segment and the entry of the first message after the watermark known so far. */
  method Lookup(env: seq<Snapshot>, t: nat, from: int, ghost at: nat, ghost m: nat, ghost c: nat)
      returns (seg: nat, pos: nat, ghost k: nat)
    requires History(env) && t < |env| && FirstAt(env[t].files, from, c)
    requires Located(env[t].files, env[t].hw, at, m) && from <= env[t].hw
    ensures StandsAt(env[t].files, seg, pos, k, 0) && c == Count(env[t].files, seg) + k && Behind(seg, k, 0, at, m)
  {
    assert Sight(env, t);
    SearchesFind(env[t].files, from, env[t].hw, at, m);
    seg := FileIndex(env[t].files, from);
    var entry := EntryIndex(env[t].files[seg].msgs, from);
    pos, k := Position(env[t].files[seg], entry), entry;
    NumberOf(env[t].files, at, m);
    FirstUnique(env[t].files, from, c, Count(env[t].files, seg) + k, Count(env[t].files, at) + m);
  }

  /** Creates a reader; a start past the watermark leaves the choice of segment to the first read. */
  method NewReader(offset: nat, env: seq<Snapshot>, t: nat) returns (r: CommittedReader, ghost c: nat)
    requires History(env) && t < |env|
    ensures fresh(r) && r.Rests(env[t], c)
    ensures offset <= env[t].hw ==> FirstAt(env[t].files, offset, c)
    ensures offset > env[t].hw ==> FirstAt(env[t].files, env[t].hw + 1, c)
  {
    var hw := env[t].hw;
    if offset > hw {
      ghost var at, top;
      at, top, c := KnownHW(env, t);
      r := new CommittedReader(false, 0, 0, 0, 0, hw, 0, top, at);
    } else {
      var at, p, m := NewestHW(env, t);
      var seg, pos;
      ghost var k;
      seg, pos, k, c := Begin(env, t, offset, at, m);
      r := new CommittedReader(true, seg, pos, at, p, hw, k, m, at);
    }
  }

  // ---------------------------------------------------------------- reading on and on

  lemma {:induction false} AllGrows(a: seq<File>, b: seq<File>)
    requires a != [] && Grows(a, b)
    ensures |All(a)| <= |All(b)| && forall n :: 0 <= n < |All(a)| ==> All(a)[n] == All(b)[n]
  {
    forall n: nat | n < |All(a)| ensures n < |All(b)| && All(a)[n] == All(b)[n] {
      SameMessage(a, b, n);
    }
    if All(a) != [] {
      SameMessage(a, b, |All(a)| - 1);
    }
  }

  lemma {:induction false} SameMessage(a: seq<File>, b: seq<File>, n: nat)
    requires Grows(a, b) && n < |All(a)|
    ensures n < |All(b)| && All(a)[n] == All(b)[n]
  {
    var i, k := Place(a, n);
    CountKept(a, b, i);
    NumberOf(b, i, k);
  }

  lemma {:induction false} StillDelivers(env: seq<Snapshot>, t: nat, u: nat, c: nat, bytes: seq<Byte>)
    requires History(env) && t <= u < |env| && Delivers(env[t], c, bytes)
    ensures Delivers(env[u], c, bytes)
  {
    assert Later(env, t, u) && Sight(env, t);
    AllGrows(env[t].files, env[u].files);
  }

  /** Up to `limit` messages one after the other: consecutive, committed, and all there are if fewer come. */
  method ReadMessages(r: CommittedReader, env: seq<Snapshot>, t: nat, limit: nat, ghost c: nat)
      returns (out: seq<seq<Byte>>, u: nat)
    requires History(env) && t < |env| && r.Rests(env[t], c)
    modifies r
    ensures t <= u < |env| && |out| <= limit && r.Rests(env[u], c + |out|)
    ensures forall i :: 0 <= i < |out| ==> Delivers(env[u], c + i, out[i])
    ensures |out| < limit ==> Exhausted(env[u], c + |out|) && u == |env| - 1
  {
    out, u := [], t;
    while |out| < limit
      invariant t <= u < |env| && |out| <= limit && r.Rests(env[u], c + |out|)
      invariant forall i :: 0 <= i < |out| ==> Delivers(env[u], c + i, out[i])
      decreases limit - |out|
    {
      ghost var v := u;
      var msg;
      msg, u := r.ReadMessage(env, u, c + |out|);
      forall i | 0 <= i < |out| ensures Delivers(env[u], c + i, out[i]) {
        StillDelivers(env, v, u, c + i, out[i]);
      }
      if msg.None? {
        return;
      }
      out := out + [msg.value];
    }
  }

  ghost predicate Rising(msgs: seq<Stored>) {
    forall i, j :: 0 <= i < j < |msgs| ==> msgs[i].offset < msgs[j].offset
  }

  lemma {:induction false} AllRises(files: seq<File>)
    requires FilesOk(files)
    ensures Rising(All(files))
  {
    forall x: nat, y: nat | x < y < |All(files)| ensures All(files)[x].offset < All(files)[y].offset {
      var i, k := Place(files, x);
      var j, l := Place(files, y);
      PlacesRise(files, i, k, j, l);
    }
  }

  lemma {:induction false} PresentNumber(files: seq<File>, offset: int) returns (n: nat)
    requires Present(files, offset)
    ensures n < |All(files)| && All(files)[n].offset == offset
  {
    var j: nat, m: nat :| Located(files, offset, j, m);
    NumberOf(files, j, m);
    n := Count(files, j) + m;
  }

  /** What was appended since is past the watermark. */
  lemma {:induction false} AppendedIsPast(env: seq<Snapshot>, t: nat, u: nat, n: nat)
    requires History(env) && t <= u < |env| && |All(env[t].files)| <= n < |All(env[u].files)|
    ensures All(env[u].files)[n].offset > env[t].hw
  {
    assert Sight(env, t) && Sight(env, u) && Later(env, t, u);
    AllGrows(env[t].files, env[u].files);
    AllRises(env[u].files);
    if env[t].hw == -1 {
      var i, k := Place(env[u].files, n);
      assert FileOk(env[u].files[i]);
    } else {
      var w := PresentNumber(env[t].files, env[t].hw);
      assert All(env[u].files)[w].offset == env[t].hw;
    }
  }

  /** The first message at an offset up to the one after the watermark stays the first. */
  lemma {:induction false} FirstStays(env: seq<Snapshot>, t: nat, u: nat, from: int, c: nat)
    requires History(env) && t <= u < |env| && FirstAt(env[t].files, from, c) && from <= env[t].hw + 1
    ensures FirstAt(env[u].files, from, c)
  {
    assert Sight(env, t) && Later(env, t, u);
    AllGrows(env[t].files, env[u].files);
    forall n: nat | n < |All(env[u].files)| ensures All(env[u].files)[n].offset >= from <==> c <= n {
      if n >= |All(env[t].files)| {
        AppendedIsPast(env, t, u, n);
      }
    }
  }

  /**
   * Creates a reader and reads on. The first message returned is the first one at or past the offset, if the log was
   * committed up to there, and otherwise the first one past the watermark.
   */
  method ReadFrom(offset: nat, env: seq<Snapshot>, t: nat, limit: nat)
      returns (out: seq<seq<Byte>>, u: nat, ghost c: nat)
    requires History(env) && t < |env|
    ensures t <= u < |env| && |out| <= limit
    ensures offset <= env[t].hw ==> FirstAt(env[u].files, offset, c)
    ensures offset > env[t].hw ==> FirstAt(env[u].files, env[t].hw + 1, c)
    ensures forall i :: 0 <= i < |out| ==> Delivers(env[u], c + i, out[i])
    ensures |out| < limit ==> Exhausted(env[u], c + |out|) && u == |env| - 1
  {
    var r;
    r, c := NewReader(offset, env, t);
    out, u := ReadMessages(r, env, t, limit, c);
    FirstStays(env, t, u, Min(offset, env[t].hw + 1), c);
  }
}

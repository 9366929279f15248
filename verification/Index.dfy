/** The segment index: fixed-width entries in a memory-mapped file that grows, found again by binary search. */
module Index {
  import opened Integers
  import opened Search
  import opened Bytes
  import opened Sequences
  import opened MessageSet

  const WIDTH: nat := 20

  /** The largest multiple of the width up to `total`. */
  function RoundDown(total: nat): (r: nat)
    ensures r <= total < r + WIDTH
  {
    WIDTH * (total / WIDTH)
  }

  /** An entry whose values survive the narrowing to 32 bits. */
  predicate Narrow(e: Entry, base: int) {
    Int32(e.offset - base) && Int64(e.timestamp) && Int32(e.position) && Int32(e.size)
  }

  /** The leader epoch is not stored. */
  function Kept(e: Entry): Entry {
    e.(leaderEpoch := 0)
  }

  function EntryBytes(e: Entry, base: int): (bs: seq<Byte>)
    requires Narrow(e, base)
    ensures |bs| == WIDTH
  {
    PutInt32(e.offset - base) + PutInt64(e.timestamp) + PutInt32(e.position) + PutInt32(e.size)
  }

  function EntryRead(bs: seq<Byte>, at: nat, base: int): Entry
    requires at + WIDTH <= |bs|
  {
    Entry(base + GetInt32(bs, at), GetInt64(bs, at + 4), 0, GetInt32(bs, at + 12), GetInt32(bs, at + 16))
  }

  lemma {:induction false} Parts<T>(a: seq<T>, o: seq<T>, t: seq<T>, p: seq<T>, s: seq<T>, b: seq<T>)
    ensures var bs := a + (o + t + p + s) + b;
            && bs == a + o + (t + p + s + b) && bs == (a + o) + t + (p + s + b)
            && bs == (a + o + t) + p + (s + b) && bs == (a + o + t + p) + s + b
  {
  }

  lemma {:induction false} EntryReadsBack(a: seq<Byte>, e: Entry, base: int, b: seq<Byte>)
    requires Narrow(e, base)
    ensures EntryRead(a + EntryBytes(e, base) + b, |a|, base) == Kept(e)
  {
    var o, t, p, s := PutInt32(e.offset - base), PutInt64(e.timestamp), PutInt32(e.position), PutInt32(e.size);
    Parts(a, o, t, p, s, b);
    Int32ReadsBack(a, e.offset - base, t + p + s + b);
    Int64ReadsBack(a + o, e.timestamp, p + s + b);
    Int32ReadsBack(a + o + t, e.position, s + b);
    Int32ReadsBack(a + o + t + p, e.size, b);
  }

  // ---------------------------------------------------------------- the file as a sequence of entries

  ghost predicate AllNarrow(es: seq<Entry>, base: int) {
    forall i :: 0 <= i < |es| ==> Narrow(es[i], base)
  }

  ghost function Slots(es: seq<Entry>, base: int): (bs: seq<seq<Byte>>)
    requires AllNarrow(es, base)
    ensures |bs| == |es| && forall i :: 0 <= i < |es| ==> bs[i] == EntryBytes(es[i], base)
  {
    seq(|es|, i requires 0 <= i < |es| => EntryBytes(es[i], base))
  }

  ghost function FileBytes(es: seq<Entry>, base: int): seq<Byte>
    requires AllNarrow(es, base)
  {
    Flat(Slots(es, base))
  }

  function Zeros(n: nat): (z: seq<Byte>)
    ensures |z| == n && forall i :: 0 <= i < n ==> z[i] == 0
  {
    seq(n, _ => 0)
  }

  lemma {:induction false} FileSize(es: seq<Entry>, base: int, k: nat)
    requires AllNarrow(es, base) && k <= |es|
    ensures Start(Slots(es, base), k) == WIDTH * k
  {
    if k == 0 {
      assert Slots(es, base)[..0] == [];
    } else {
      FileSize(es, base, k - 1);
      FlatAround(Slots(es, base), k - 1);
    }
  }

  lemma {:induction false} WholeFile(es: seq<Entry>, base: int)
    requires AllNarrow(es, base)
    ensures |FileBytes(es, base)| == WIDTH * |es|
  {
    FileSize(es, base, |es|);
    assert Slots(es, base)[..|es|] == Slots(es, base);
  }

  lemma {:induction false} FileAppend(es: seq<Entry>, fs: seq<Entry>, base: int)
    requires AllNarrow(es, base) && AllNarrow(fs, base)
    ensures AllNarrow(es + fs, base) && FileBytes(es + fs, base) == FileBytes(es, base) + FileBytes(fs, base)
  {
    assert Slots(es + fs, base) == Slots(es, base) + Slots(fs, base);
    FlatConcat(Slots(es, base), Slots(fs, base));
  }

  /** The mapped file: the entries, then zeros. */
  ghost predicate Maps(mmap: seq<Byte>, es: seq<Entry>, base: int) {
    AllNarrow(es, base) && WIDTH * |es| <= |mmap| && mmap == FileBytes(es, base) + Zeros(|mmap| - WIDTH * |es|)
  }

  lemma {:induction false} MappedEntry(mmap: seq<Byte>, es: seq<Entry>, base: int, k: nat)
    requires Maps(mmap, es, base) && k < |es|
    ensures WIDTH * k + WIDTH <= |mmap| && EntryRead(mmap, WIDTH * k, base) == Kept(es[k])
  {
    var bs, z := Slots(es, base), Zeros(|mmap| - WIDTH * |es|);
    FileSize(es, base, k);
    FlatAround(bs, k);
    var a, b := Flat(bs[..k]), Flat(bs[k + 1..]);
    EntryReadsBack(a, es[k], base, b + z);
    assert mmap == a + EntryBytes(es[k], base) + (b + z);
  }

  // ---------------------------------------------------------------- growing the file

  /** The size the file needs for a write of `len` bytes at `at`: unchanged, grown by a step, or grown by the write. */
  function GrownSize(size: nat, step: nat, at: nat, len: nat): nat {
    if at + len < size then size
    else if RoundDown(size + step) < at + len then size + len
    else RoundDown(size + step)
  }

  lemma {:induction false} GrownSizeFits(cap: nat, step: nat, n: nat, m: nat) returns (cap': nat)
    requires n <= cap
    ensures GrownSize(WIDTH * cap, step, WIDTH * n, WIDTH * m) == WIDTH * cap' && cap <= cap' && n + m <= cap'
  {
    var size := GrownSize(WIDTH * cap, step, WIDTH * n, WIDTH * m);
    if WIDTH * n + WIDTH * m < WIDTH * cap {
      cap' := cap;
    } else if RoundDown(WIDTH * cap + step) < WIDTH * n + WIDTH * m {
      cap' := cap + m;
    } else {
      cap' := (WIDTH * cap + step) / WIDTH;
    }
  }

  /** Writing entries after those there keeps the shape of the file, whether or not it was grown first. */
  lemma {:induction false} WriteMaps(mmap: seq<Byte>, es: seq<Entry>, base: int, fs: seq<Entry>, size: nat)
    requires Maps(mmap, es, base) && AllNarrow(fs, base) && |mmap| <= size && WIDTH * (|es| + |fs|) <= size
    ensures var at := WIDTH * |es|; var grown := mmap + Zeros(size - |mmap|); var p := FileBytes(fs, base);
            && at + |p| <= |grown| == size && Maps(grown[..at] + p + grown[at + |p|..], es + fs, base)
  {
    WholeFile(es, base);
    WholeFile(fs, base);
    FileAppend(es, fs, base);
    WholeFile(es + fs, base);
    var at, p := WIDTH * |es|, FileBytes(fs, base);
    var grown := mmap + Zeros(size - |mmap|);
    assert grown[..at] == FileBytes(es, base);
    assert grown[at + |p|..] == Zeros(size - at - |p|);
  }

  method EncodeEntries(es: seq<Entry>, base: int) returns (b: seq<Byte>)
    requires AllNarrow(es, base)
    ensures b == FileBytes(es, base)
  {
    b := [];
    assert Slots(es[..0], base) == [];
    for i := 0 to |es|
      invariant AllNarrow(es[..i], base) && b == FileBytes(es[..i], base)
    {
      FileAppend(es[..i], [es[i]], base);
      OneEntry(es[i], base);
      assert es[..i + 1] == es[..i] + [es[i]];
      b := b + EntryBytes(es[i], base);
    }
    assert es[..|es|] == es;
  }

  class IndexFile {
    const base: int
    const step: nat
    var mmap: seq<Byte>
    var size: nat
    var position: nat
    ghost var entries: seq<Entry>
    ghost var cap: nat

    /** The file holds the entries and then zeros; position and size are whole numbers of entries. */
    ghost predicate Valid()
      reads this
    {
      && size == |mmap| == WIDTH * cap && position == WIDTH * |entries|
      && Maps(mmap, entries, base)
    }

    /** Copies into the file, growing it first if the write would reach its end. */
    method WriteAt(p: seq<Byte>, at: nat)
      requires size == |mmap| && at <= size
      modifies this`mmap, this`size
      ensures size == |mmap| == GrownSize(old(size), step, at, |p|) && old(size) <= size && at + |p| <= size
      ensures var grown := old(mmap) + Zeros(size - old(size)); mmap == grown[..at] + p + grown[at + |p|..]
    {
      if at + |p| >= size {
        var newSize := RoundDown(size + step);
        if newSize < at + |p| {
          newSize := size + |p|;
        }
        mmap := mmap + Zeros(newSize - size);
        size := newSize;
      } else {
        assert mmap + Zeros(0) == mmap;
      }
      mmap := mmap[..at] + p + mmap[at + |p|..];
    }

    method WriteEntries(es: seq<Entry>)
      requires Valid() && AllNarrow(es, base)
      modifies this
      ensures Valid() && entries == old(entries) + es
    {
      var b := EncodeEntries(es, base);
      WholeFile(es, base);
      ghost var more := GrownSizeFits(cap, step, |entries|, |es|);
      WriteMaps(mmap, entries, base, es, WIDTH * more);
      WriteAt(b, position);
      position := position + WIDTH * |es|;
      cap, entries := more, entries + es;
    }

    /** The entry at a byte offset of the file; nothing past the position. */
    method ReadEntryAtFileOffset(at: nat) returns (e: Option<Entry>)
      requires position <= |mmap|
      ensures e == if position < at + WIDTH then None else Some(EntryRead(mmap, at, base))
    {
      if position < at + WIDTH {
        return None;
      }
      return Some(EntryRead(mmap, at, base));
    }

    /** Entry `k` reads back as written, but for the leader epoch. */
    method ReadEntryAtLogOffset(k: nat) returns (e: Option<Entry>)
      requires Valid()
      ensures e == if k < |entries| then Some(Kept(entries[k])) else None
    {
      if k < |entries| {
        MappedEntry(mmap, entries, base, k);
      }
      e := ReadEntryAtFileOffset(k * WIDTH);
    }

    /** Opening a file again: a new one is allocated zeros, and every entry can be read until the position is set. */
    constructor (base: int, bytes: nat, file: seq<Byte>, ghost es: seq<Entry>, ghost cap: nat)
      requires file == [] ==> es == []
      requires file != [] ==> |file| == WIDTH * cap && Maps(file, es, base)
      ensures this.base == base && size == position == |mmap| && Maps(mmap, es, base)
      ensures file != [] ==> mmap == file
      ensures exists c: nat :: size == WIDTH * c
    {
      this.base := base;
      var step := if bytes == 0 then 10 * 1024 * 1024 else bytes;
      this.step := step;
      var content := if file == [] then Zeros(RoundDown(step)) else file;
      mmap, size, position := content, |content|, |content|;
      entries := es;
      this.cap := if file == [] then step / WIDTH else cap;
      assert Slots([], base) == [];
      assert [] + content == content;
    }

    /** The binary search for the first unused entry sets the position; the last entry comes back. */
    method InitializePosition(ghost es: seq<Entry>, ghost c: nat) returns (last: Option<Entry>, corrupt: bool)
      requires size == position == |mmap| == WIDTH * c && Maps(mmap, es, base)
      requires forall i :: 0 <= i < |es| ==> es[i].size != 0
      modifies this`position, this`entries, this`cap
      ensures Valid() && entries == es
      ensures last == if es == [] then None else Some(Kept(es[|es| - 1]))
      ensures corrupt <==> es != [] && es[|es| - 1].offset < base
    {
      var i: nat, j: nat := 0, size / WIDTH;
      while i < j
        invariant i <= |es| <= j <= c && position == size
      {
        var h: nat := (i + j) / 2;
        var e := ReadEntryAtFileOffset(WIDTH * h);
        EmptyFrom(mmap, es, base, h);
        if IsEmpty(e.value) {
          j := h;
        } else {
          i := h + 1;
        }
      }
      position := WIDTH * i;
      entries, cap := es, c;
      if i == 0 {
        return None, false;
      }
      MappedEntry(mmap, es, base, i - 1);
      last := ReadEntryAtFileOffset(WIDTH * (i - 1));
      corrupt := last.value.offset < base;
    }
  }

  lemma {:induction false} OneEntry(e: Entry, base: int)
    requires Narrow(e, base)
    ensures FileBytes([e], base) == EntryBytes(e, base)
  {
    assert Slots([e], base) == [EntryBytes(e, base)];
    FlatOne(EntryBytes(e, base));
  }

  // ---------------------------------------------------------------- opening again

  /** How an unused entry reads. */
  predicate IsEmpty(e: Entry) {
    e.position == 0 && e.timestamp == 0 && e.size == 0
  }

  lemma {:induction false} ZerosRead(bs: seq<Byte>, at: nat, w: nat)
    requires at + w <= |bs| && forall i :: at <= i < at + w ==> bs[i] == 0
    ensures GetUInt(bs, at, w) == 0
    decreases w
  {
    if w == 0 {
    } else {
      ZerosRead(bs, at, w - 1);
    }
  }

  lemma {:induction false} UnusedReadsEmpty(mmap: seq<Byte>, es: seq<Entry>, base: int, k: nat)
    requires Maps(mmap, es, base) && |es| <= k && WIDTH * k + WIDTH <= |mmap|
    ensures IsEmpty(EntryRead(mmap, WIDTH * k, base))
  {
    WholeFile(es, base);
    var at := WIDTH * k;
    assert forall i :: at <= i < at + WIDTH ==> mmap[i] == 0;
    ZerosRead(mmap, at + 4, 8);
    ZerosRead(mmap, at + 12, 4);
    ZerosRead(mmap, at + 16, 4);
  }

  /** An entry is empty exactly from the number of entries on, as long as every entry has a size. */
  lemma {:induction false} EmptyFrom(mmap: seq<Byte>, es: seq<Entry>, base: int, k: nat)
    requires Maps(mmap, es, base) && WIDTH * k + WIDTH <= |mmap| && forall i :: 0 <= i < |es| ==> es[i].size != 0
    ensures IsEmpty(EntryRead(mmap, WIDTH * k, base)) <==> |es| <= k
  {
    if k < |es| {
      MappedEntry(mmap, es, base, k);
    } else {
      UnusedReadsEmpty(mmap, es, base, k);
    }
  }
}

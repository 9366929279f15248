/** The delete cleaner: whole segments go, oldest first, until the age, message and byte limits are met. */
module Retention {
  import opened Search

  datatype SizedSegment = SizedSegment(messages: nat, bytes: nat, lastWrite: int)

  /** A limit of zero is no limit. */
  datatype Limits = Limits(age: nat, messages: nat, bytes: nat)

  function Messages(segs: seq<SizedSegment>): nat {
    if segs == [] then 0 else segs[0].messages + Messages(segs[1..])
  }

  function Bytes(segs: seq<SizedSegment>): nat {
    if segs == [] then 0 else segs[0].bytes + Bytes(segs[1..])
  }

  lemma {:induction false} OneMore(segs: seq<SizedSegment>, s: SizedSegment)
    ensures Messages(segs + [s]) == Messages(segs) + s.messages && Bytes(segs + [s]) == Bytes(segs) + s.bytes
  {
    if segs == [] {
      assert (segs + [s])[1..] == [];
    } else {
      assert (segs + [s])[1..] == segs[1..] + [s];
      OneMore(segs[1..], s);
    }
  }

  // ---------------------------------------------------------------- each limit by itself

  /** A segment age does not delete: one written to since `ttl`, or the active one. */
  predicate Fresh(segs: seq<SizedSegment>, i: int, ttl: int)
    requires 0 <= i < |segs|
  {
    i == |segs| - 1 || segs[i].lastWrite >= ttl
  }

  /** Deletion by age stops at the first fresh segment: `k` is not before it. */
  predicate AgeOk(segs: seq<SizedSegment>, k: nat, ttl: int) {
    k < |segs| && exists i :: 0 <= i <= k && Fresh(segs, i, ttl)
  }

  predicate MessagesOk(segs: seq<SizedSegment>, k: nat, limit: nat) {
    k <= |segs| && Messages(segs[k..]) <= limit
  }

  /** The active segment stays whatever its size. */
  predicate BytesOk(segs: seq<SizedSegment>, k: nat, limit: nat) {
    k < |segs| && (k == |segs| - 1 || Bytes(segs[k..]) <= limit)
  }

  lemma {:induction false} SumsFall(segs: seq<SizedSegment>, j: nat, k: nat)
    requires j <= k <= |segs|
    ensures Messages(segs[k..]) <= Messages(segs[j..]) && Bytes(segs[k..]) <= Bytes(segs[j..])
    decreases k - j
  {
    if j == k {
    } else {
      assert segs[j..][1..] == segs[j + 1..];
      SumsFall(segs, j + 1, k);
    }
  }

  /** How many segments at the front are missing from what is left. */
  function Deleted(segs: seq<SizedSegment>, left: seq<SizedSegment>): int {
    |segs| - |left|
  }

  ghost predicate IsEnd(segs: seq<SizedSegment>, left: seq<SizedSegment>) {
    |left| <= |segs| && left == segs[Deleted(segs, left)..]
  }

  method ApplyAgeLimit(segs: seq<SizedSegment>, ttl: int) returns (left: seq<SizedSegment>)
    requires segs != []
    ensures IsEnd(segs, left) && AgeOk(segs, Deleted(segs, left), ttl)
    ensures forall i :: 0 <= i < Deleted(segs, left) ==> !AgeOk(segs, i, ttl)
    ensures left != [] && (forall i :: 0 <= i < Deleted(segs, left) ==> segs[i].lastWrite < ttl)
    ensures |left| > 1 ==> left[0].lastWrite >= ttl
  {
    var i := 0;
    while i != |segs| - 1 && segs[i].lastWrite < ttl
      invariant 0 <= i < |segs| && forall j :: 0 <= j < i ==> !Fresh(segs, j, ttl) && segs[j].lastWrite < ttl
    {
      i := i + 1;
    }
    assert Fresh(segs, i, ttl);
    return segs[i..];
  }

  /** Counts from the newest segment backwards; a single segment is left alone. */
  method ApplyMessagesLimit(segs: seq<SizedSegment>, limit: nat) returns (left: seq<SizedSegment>)
    ensures IsEnd(segs, left) && (|segs| <= 1 ==> left == segs)
    ensures |segs| > 1 ==> MessagesOk(segs, Deleted(segs, left), limit)
    ensures |segs| > 1 ==> forall i :: 0 <= i < Deleted(segs, left) ==> !MessagesOk(segs, i, limit)
    ensures |segs| > 1 ==> Messages(left) <= limit
    ensures left != segs ==> Messages(segs[Deleted(segs, left) - 1..]) > limit
  {
    if |segs| <= 1 {
      return segs;
    }
    var total, i := 0, |segs|;
    left := [];
    while i > 0
      invariant 0 <= i <= |segs| && left == segs[i..] && total == Messages(segs[i..]) <= limit
    {
      assert segs[i - 1..][1..] == segs[i..];
      total := total + segs[i - 1].messages;
      if total > limit {
        forall j | 0 <= j < i ensures !MessagesOk(segs, j, limit) {
          SumsFall(segs, j, i - 1);
        }
        return;
      }
      left := [segs[i - 1]] + left;
      i := i - 1;
    }
  }

  /** Counts likewise, but begins with the active segment in hand. An empty list has none. */
  method ApplyBytesLimit(segs: seq<SizedSegment>, limit: nat) returns (left: seq<SizedSegment>)
    requires segs != []
    ensures IsEnd(segs, left) && BytesOk(segs, Deleted(segs, left), limit)
    ensures forall i :: 0 <= i < Deleted(segs, left) ==> !BytesOk(segs, i, limit)
    ensures left != [] && (|left| > 1 ==> Bytes(left) <= limit)
    ensures left != segs ==> Bytes(segs[Deleted(segs, left) - 1..]) > limit
  {
    var i := |segs| - 1;
    left := [segs[i]];
    var total := segs[i].bytes;
    assert segs[i..][1..] == [];
    while i > 0
      invariant 0 <= i < |segs| && left == segs[i..] && total == Bytes(segs[i..]) && BytesOk(segs, i, limit)
    {
      assert segs[i - 1..][1..] == segs[i..];
      total := total + segs[i - 1].bytes;
      if total > limit {
        forall j | 0 <= j < i ensures !BytesOk(segs, j, limit) {
          SumsFall(segs, j, i - 1);
        }
        return;
      }
      left := [segs[i - 1]] + left;
      i := i - 1;
    }
  }

  // ---------------------------------------------------------------- all limits together

  /** What is left from segment `k` on meets every limit that is set. */
  predicate Meets(segs: seq<SizedSegment>, k: nat, limits: Limits, ttl: int) {
    && k < |segs|
    && (limits.age > 0 ==> AgeOk(segs, k, ttl))
    && (limits.messages > 0 ==> MessagesOk(segs, k, limits.messages))
    && (limits.bytes > 0 ==> BytesOk(segs, k, limits.bytes))
  }

  /** A limit on part of the list is the limit on the whole list, shifted. */
  lemma {:induction false} Shifted(segs: seq<SizedSegment>, k: nat, i: nat, limit: nat)
    requires k < |segs| && i <= |segs| - k
    ensures MessagesOk(segs[k..], i, limit) <==> MessagesOk(segs, k + i, limit)
    ensures BytesOk(segs[k..], i, limit) <==> BytesOk(segs, k + i, limit)
  {
  }

  predicate Overfull(segs: seq<SizedSegment>, limits: Limits)
    requires segs != []
  {
    limits.messages > 0 && segs[|segs| - 1].messages > limits.messages
  }

  /** `a` segments are what age deletes. */
  ghost predicate AgeDone(segs: seq<SizedSegment>, a: int, limits: Limits, ttl: int) {
    && 0 <= a < |segs|
    && if limits.age > 0 then AgeOk(segs, a, ttl) && forall i :: 0 <= i < a ==> !AgeOk(segs, i, ttl) else a == 0
  }

  /** After `a` segments, going on to `b` is what the message limit asks for. */
  ghost predicate MessagesDone(segs: seq<SizedSegment>, a: int, b: int, limits: Limits) {
    && 0 <= a <= b < |segs|
    && if limits.messages > 0 then MessagesOk(segs, b, limits.messages) && forall i :: a <= i < b ==>
        !MessagesOk(segs, i, limits.messages) else a == b
  }

  ghost predicate BytesDone(segs: seq<SizedSegment>, b: int, c: int, limits: Limits) {
    && 0 <= b <= c < |segs|
    && if limits.bytes > 0 then BytesOk(segs, c, limits.bytes) && forall i :: b <= i < c ==>
        !BytesOk(segs, i, limits.bytes) else b == c
  }

  lemma {:induction false} EndOfEnd(segs: seq<SizedSegment>, was: seq<SizedSegment>, left: seq<SizedSegment>)
    requires IsEnd(segs, was) && IsEnd(was, left)
    ensures IsEnd(segs, left) && Deleted(segs, left) == Deleted(segs, was) + Deleted(was, left)
  {
  }

  lemma {:induction false} MessagePass(segs: seq<SizedSegment>, a: nat, b: nat, limits: Limits)
    requires a < |segs| && b <= |segs| - a && !Overfull(segs, limits) && limits.messages > 0
    requires |segs[a..]| <= 1 ==> b == 0
    requires |segs[a..]| > 1 ==> MessagesOk(segs[a..], b, limits.messages) && forall i :: 0 <= i < b ==>
             !MessagesOk(segs[a..], i, limits.messages)
    ensures MessagesDone(segs, a, a + b, limits)
  {
    var last := |segs| - 1;
    assert segs[last..][1..] == [];
    Shifted(segs, a, b, limits.messages);
    Shifted(segs, a, last - a, limits.messages);
    forall i | a <= i < a + b ensures !MessagesOk(segs, i, limits.messages) {
      Shifted(segs, a, i - a, limits.messages);
    }
  }

  lemma {:induction false} BytePass(segs: seq<SizedSegment>, b: nat, c: nat, limits: Limits)
    requires b < |segs| && limits.bytes > 0
    requires BytesOk(segs[b..], c, limits.bytes) && forall i :: 0 <= i < c ==> !BytesOk(segs[b..], i, limits.bytes)
    ensures BytesDone(segs, b, b + c, limits)
  {
    Shifted(segs, b, c, limits.bytes);
    forall i | b <= i < b + c ensures !BytesOk(segs, i, limits.bytes) {
      Shifted(segs, b, i - b, limits.bytes);
    }
  }

  /** The oldest segment kept: the one that meets every limit with the fewest deletions. */
  ghost predicate Best(segs: seq<SizedSegment>, k: int, limits: Limits, ttl: int) {
    0 <= k && Meets(segs, k, limits, ttl) && forall j :: 0 <= j < k ==> !Meets(segs, j, limits, ttl)
  }

  lemma {:induction false} PassesMeet(segs: seq<SizedSegment>, a: nat, b: nat, c: nat, limits: Limits, ttl: int)
    requires AgeDone(segs, a, limits, ttl) && MessagesDone(segs, a, b, limits) && BytesDone(segs, b, c, limits)
    ensures Best(segs, c, limits, ttl)
  {
    SumsFall(segs, b, c);
  }

  /** Age leaves only the active segment exactly when no other is fresh. */
  ghost predicate OnlyActive(segs: seq<SizedSegment>, limits: Limits, ttl: int) {
    |segs| == 1 || (limits.age > 0 && forall i :: 0 <= i < |segs| - 1 ==> !Fresh(segs, i, ttl))
  }

  lemma {:induction false} AgeLeaves(segs: seq<SizedSegment>, a: nat, limits: Limits, ttl: int)
    requires AgeDone(segs, a, limits, ttl)
    ensures OnlyActive(segs, limits, ttl) <==> a == |segs| - 1
  {
    if limits.age > 0 {
      var f :| 0 <= f <= a && Fresh(segs, f, ttl);
      assert AgeOk(segs, f, ttl);
      if i :| 0 <= i < |segs| - 1 && Fresh(segs, i, ttl) {
        assert AgeOk(segs, i, ttl);
      }
    }
  }

  lemma {:induction false} TooMany(segs: seq<SizedSegment>, a: nat, b: nat, limit: nat)
    requires a < |segs| - 1 && b <= |segs| - a && segs[|segs| - 1].messages > limit && MessagesOk(segs[a..], b, limit)
    ensures a + b == |segs|
  {
    var last := |segs| - 1;
    assert segs[last..][1..] == [];
    Shifted(segs, a, b, limit);
    if a + b < |segs| {
      SumsFall(segs, a + b, last);
    }
  }

  /** The message pass on what age left. */
  method LimitMessages(aged: seq<SizedSegment>, limits: Limits, ghost segs: seq<SizedSegment>)
      returns (left: seq<SizedSegment>)
    requires IsEnd(segs, aged) && aged != []
    ensures IsEnd(segs, left)
    ensures !Overfull(segs, limits) ==> MessagesDone(segs, Deleted(segs, aged), Deleted(segs, left), limits)
    ensures Overfull(segs, limits) ==> left == if |aged| == 1 then aged else []
  {
    left := aged;
    if limits.messages > 0 {
      ghost var a := Deleted(segs, aged);
      left := ApplyMessagesLimit(aged, limits.messages);
      EndOfEnd(segs, aged, left);
      if !Overfull(segs, limits) {
        MessagePass(segs, a, Deleted(aged, left), limits);
      } else if |aged| > 1 {
        TooMany(segs, a, Deleted(aged, left), limits.messages);
      }
    }
  }

  /** The byte pass on what is left then; `None` for the panic on an empty list. */
  method LimitBytes(some: seq<SizedSegment>, limits: Limits, ghost segs: seq<SizedSegment>)
      returns (r: Option<seq<SizedSegment>>)
    requires IsEnd(segs, some)
    ensures some == [] ==> r == if limits.bytes > 0 then None else Some([])
    ensures some != [] ==>
            r.Some? && IsEnd(segs, r.value) && BytesDone(segs, Deleted(segs, some), Deleted(segs, r.value), limits)
    ensures |some| == 1 ==> r == Some(some)
  {
    if limits.bytes == 0 {
      return Some(some);
    }
    if some == [] {
      return None;
    }
    var left := ApplyBytesLimit(some, limits.bytes);
    EndOfEnd(segs, some, left);
    BytePass(segs, Deleted(segs, some), Deleted(some, left), limits);
    return Some(left);
  }

  /**
   * The three passes one after the other. As long as the active segment is within the message limit, what is left
   * is the longest end of the list that meets all limits, and it is not empty. Otherwise everything goes, and a
   * byte limit then finds no active segment: `None` stands for that panic. A list that age cuts down to the active
   * segment is left at that.
   */
  method Clean(segs: seq<SizedSegment>, limits: Limits, ttl: int) returns (r: Option<seq<SizedSegment>>)
    ensures r.Some? ==> IsEnd(segs, r.value)
    ensures segs != [] && !Overfull(segs, limits) ==> r.Some? && Best(segs, Deleted(segs, r.value), limits, ttl)
    ensures segs != [] && Overfull(segs, limits) ==>
              if OnlyActive(segs, limits, ttl) then r == Some(segs[|segs| - 1..])
              else if limits.bytes > 0 then r.None? else r == Some([])
  {
    if segs == [] || (limits.bytes == 0 && limits.messages == 0 && limits.age == 0) {
      return Some(segs);
    }
    var aged := segs;
    if limits.age > 0 {
      aged := ApplyAgeLimit(segs, ttl);
    }
    AgeLeaves(segs, Deleted(segs, aged), limits, ttl);
    var some := LimitMessages(aged, limits, segs);
    r := LimitBytes(some, limits, segs);
    if !Overfull(segs, limits) {
      PassesMeet(segs, Deleted(segs, aged), Deleted(segs, some), Deleted(segs, r.value), limits, ttl);
    }
  }
}

/** Joining a sequence of blocks end to end. */
module Sequences {

  function Flat<T>(blocks: seq<seq<T>>): seq<T> {
    if blocks == [] then [] else Flat(blocks[..|blocks| - 1]) + blocks[|blocks| - 1]
  }

  /** Where block `k` begins. */
  function Start<T>(blocks: seq<seq<T>>, k: nat): nat
    requires k <= |blocks|
  {
    |Flat(blocks[..k])|
  }

  lemma {:induction false} FlatConcat<T>(a: seq<seq<T>>, b: seq<seq<T>>)
    ensures Flat(a + b) == Flat(a) + Flat(b)
    decreases |b|
  {
    if b == [] {
      assert a + b == a;
    } else {
      assert (a + b)[..|a| + |b| - 1] == a + b[..|b| - 1];
      FlatConcat(a, b[..|b| - 1]);
    }
  }

  lemma {:induction false} FlatOne<T>(x: seq<T>)
    ensures Flat([x]) == x
  {
  }

  /** Everything before block `k`, the block, everything after. */
  lemma {:induction false} FlatAround<T>(blocks: seq<seq<T>>, k: nat)
    requires k < |blocks|
    ensures Flat(blocks) == Flat(blocks[..k]) + blocks[k] + Flat(blocks[k + 1..])
    ensures Start(blocks, k + 1) == Start(blocks, k) + |blocks[k]|
    ensures Start(blocks, k + 1) <= |Flat(blocks)|
    ensures Flat(blocks)[Start(blocks, k)..Start(blocks, k + 1)] == blocks[k]
  {
    assert blocks[..k + 1][..k] == blocks[..k];
    assert blocks == blocks[..k + 1] + blocks[k + 1..];
    FlatConcat(blocks[..k + 1], blocks[k + 1..]);
  }
}

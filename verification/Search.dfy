/** The binary search of Go's `sort.Search`, which every lookup of the commit log uses. */
module Search {

  datatype Option<+T> = None | Some(value: T)

  /** True on an up-closed part of `0..n`: the precondition under which a binary search finds a boundary. */
  ghost predicate Monotone(n: nat, f: nat --> bool)
    requires forall i :: 0 <= i < n ==> f.requires(i)
  {
    forall i, j :: 0 <= i <= j < n && f(i) ==> f(j)
  }

  /** Returns a boundary of `f`: an index where it is true just after one where it is false. */
  function Search(n: nat, f: nat --> bool): (k: nat)
    requires forall i :: 0 <= i < n ==> f.requires(i)
    ensures k <= n
    ensures k < n ==> f(k)
    ensures 0 < k ==> !f(k - 1)
  {
    Between(n, f, 0, n)
  }

  function Between(n: nat, f: nat --> bool, lo: nat, hi: nat): (k: nat)
    requires forall i :: 0 <= i < n ==> f.requires(i)
    requires lo <= hi <= n
    requires 0 < lo ==> !f(lo - 1)
    requires hi < n ==> f(hi)
    ensures lo <= k <= hi
    ensures k < n ==> f(k)
    ensures 0 < k ==> !f(k - 1)
    decreases hi - lo
  {
    if lo == hi then lo
    else
      var mid := (lo + hi) / 2;
      if !f(mid) then Between(n, f, mid + 1, hi) else Between(n, f, lo, mid)
  }

  /** On a monotone predicate the boundary is the first index at which it holds. */
  lemma {:induction false} SearchFindsFirst(n: nat, f: nat --> bool)
    requires forall i :: 0 <= i < n ==> f.requires(i)
    requires Monotone(n, f)
    ensures forall i :: 0 <= i < n ==> (f(i) <==> Search(n, f) <= i)
  {
  }
}

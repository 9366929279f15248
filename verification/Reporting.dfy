/** What a leader tracks of its ISR within an epoch: exactly the greatest offset each member has told it since it
    joined, and what all have told it is committed. */
module Reporting {
  import opened Integers
  import opened Search
  import opened Partition
  import opened Replication

  /** The step tells the leader that a replica has everything up to an offset. */
  predicate Tells(c: Config, s: System, step: Step, r: string, o: int) {
    match step
    case ReportStep => r == c.self && o == NewestOffset(s.leader.log)
    case HandleStep(req, _) =>
      r == req.from && r in c.replicas && r != c.self && (req.epoch == 0 || req.epoch == c.epoch) && o == req.offset
    case _ => false
  }

  /** The step removes the replica from the ISR or puts it there anew. */
  predicate Moves(step: Step, r: string) {
    step == ShrinkStep(r) || step == ExpandStep(r)
  }

  lemma {:induction false} StepTracks(c: Config, s: System, step: Step, t: System, r: string)
    requires IsStep(c, s, step, t) && r in s.leader.isr && !Moves(step, r)
    ensures r in t.leader.isr && s.leader.isr[r] <= t.leader.isr[r]
    ensures forall o :: Tells(c, s, step, r, o) ==> o <= t.leader.isr[r]
    ensures t.leader.isr[r] == s.leader.isr[r] || Tells(c, s, step, r, t.leader.isr[r])
  {
  }

  /** The replica came into the ISR just before state `k`, or was there from the start. */
  ghost predicate Joined(run: seq<System>, steps: seq<Step>, k: nat, r: string)
    requires |run| == |steps| + 1 && k < |run|
  {
    if k == 0 then r in run[0].leader.isr else steps[k - 1] == ExpandStep(r)
  }

  /** It stays where it is in the steps from `k` up to `n`. */
  ghost predicate Stays(steps: seq<Step>, k: nat, n: nat, r: string)
    requires n <= |steps|
  {
    forall j :: k <= j < n ==> !Moves(steps[j], r)
  }

  /** What is tracked of a replica that has just joined. */
  function AtFirst(run: seq<System>, k: nat, r: string): int
    requires run != []
  {
    if k == 0 && r in run[0].tracked0 then run[0].tracked0[r] else -1
  }

  /** A member of the ISR joined at some point and stayed since. */
  lemma {:induction false} MemberJoined(c: Config, run: seq<System>, steps: seq<Step>, n: nat, r: string)
      returns (k: nat)
    requires IsRun(c, run, steps) && n < |run| && r in run[n].leader.isr
    ensures k <= n && Joined(run, steps, k, r) && Stays(steps, k, n, r)
  {
    if n == 0 || steps[n - 1] == ExpandStep(r) {
      k := n;
    } else {
      assert StepAt(c, run, steps, n - 1);
      k := MemberJoined(c, run, steps, n - 1, r);
    }
  }

  ghost predicate ToldAt(c: Config, run: seq<System>, steps: seq<Step>, i: nat, r: string, o: int)
    requires i < |steps| && |run| == |steps| + 1
  {
    Tells(c, run[i], steps[i], r, o)
  }

  /** No offset told since then is above this one. */
  ghost predicate AtLeastTold(c: Config, run: seq<System>, steps: seq<Step>, k: nat, n: nat, r: string, top: int)
    requires n <= |steps| && |run| == |steps| + 1
  {
    forall i, o :: k <= i < n && ToldAt(c, run, steps, i, r, o) ==> o <= top
  }

  /** Over every run, what is tracked of a member is the greatest offset it has told the leader since it joined, or what
      it joined with if that is greater. */
  lemma {:induction false} TrackedIsGreatest(c: Config, run: seq<System>, steps: seq<Step>, k: nat, n: nat, r: string)
    requires IsRun(c, run, steps) && k <= n < |run| && Joined(run, steps, k, r) && Stays(steps, k, n, r)
    ensures r in run[n].leader.isr && AtFirst(run, k, r) <= run[n].leader.isr[r]
    ensures AtLeastTold(c, run, steps, k, n, r, run[n].leader.isr[r])
    ensures var o := run[n].leader.isr[r];
            o == AtFirst(run, k, r) || exists i :: k <= i < n && ToldAt(c, run, steps, i, r, o)
    decreases n
  {
    if n == k {
      if k > 0 {
        assert StepAt(c, run, steps, k - 1);
      }
    } else {
      TrackedIsGreatest(c, run, steps, k, n - 1, r);
      assert StepAt(c, run, steps, n - 1) && !Moves(steps[n - 1], r);
      StepTracks(c, run[n - 1], steps[n - 1], run[n], r);
      var o := run[n].leader.isr[r];
      forall i, p | k <= i < n && ToldAt(c, run, steps, i, r, p) ensures p <= o {
        assert i < n - 1 ==> p <= run[n - 1].leader.isr[r];
      }
      if o != run[n - 1].leader.isr[r] {
        assert ToldAt(c, run, steps, n - 1, r, o);
      }
    }
  }

  /** So an offset that was told stays covered until the member is removed or joins anew. */
  lemma {:induction false} ToldIsTracked(c: Config, run: seq<System>, steps: seq<Step>, i: nat, n: nat, r: string,
        o: int)
    requires IsRun(c, run, steps) && i < n < |run| && r in run[i].leader.isr
    requires ToldAt(c, run, steps, i, r, o) && Stays(steps, i, n, r)
    ensures r in run[n].leader.isr && o <= run[n].leader.isr[r]
  {
    var k := MemberJoined(c, run, steps, i, r);
    TrackedIsGreatest(c, run, steps, k, n, r);
  }

  /** A member of the ISR has told the leader, while it was one, that it has everything up to an offset. */
  ghost predicate HasTold(c: Config, run: seq<System>, steps: seq<Step>, n: nat, r: string, o: int)
    requires n <= |steps| && |run| == |steps| + 1
  {
    exists i, p :: 0 <= i < n && o <= p && ToldSince(c, run, steps, i, n, r, p)
  }

  ghost predicate ToldSince(c: Config, run: seq<System>, steps: seq<Step>, i: nat, n: nat, r: string, o: int)
    requires i < n <= |steps| && |run| == |steps| + 1
  {
    r in run[i].leader.isr && ToldAt(c, run, steps, i, r, o) && Stays(steps, i, n, r)
  }

  /**
   * When the commit loop begins to read the offsets after every member of the ISR has told the leader that it has a
   * message, the decision it comes to commits the message, and acknowledges it if it is on the queue by then.
   */
  lemma {:induction false} ToldIsCommitted(c: Config, run: seq<System>, steps: seq<Step>, b: nat, d: nat, e: nat,
        o: int)
    requires IsRun(c, run, steps) && b < d < e < |steps|
    requires steps[b].BeginStep? && steps[d].DecideStep? && steps[e].CompleteStep?
    requires forall i :: b < i < d ==> !steps[i].DecideStep?
    requires forall i :: d < i < e ==> !steps[i].CompleteStep?
    requires forall r <- run[b].leader.isr :: HasTold(c, run, steps, b, r, o)
    requires run[e].base <= o < Queued(run[e].leader) <= |run[e].leader.log| && Wants(run[e].leader.log[o], ALL)
    ensures run[e + 1].leader.hw >= o && o in Offsets(run[e + 1].leader.acks)
  {
    forall r | r in run[b].leader.isr ensures o <= run[b].leader.isr[r] {
      assert HasTold(c, run, steps, b, r, o);
      var i, p :| 0 <= i < b && o <= p && ToldSince(c, run, steps, i, b, r, p);
      ToldIsTracked(c, run, steps, i, b, r, p);
    }
    ReportedIsCommitted(c, run, steps, b, d, e, o);
  }
}

/** The offsets a leader tracks over many epochs, and exactly when all of them have been reported to it in its epoch. */
module Tracking {
  import opened HandOver

  /** The newest offset a replica has reported to the leader of a line. */
  function Reported(l: Line, id: nat): int {
    if id == l.leader then |l.log| - 1 else if id in l.sent then l.sent[id] else -1
  }

  /** The new leader's offset map holds no offset from an earlier time it led. */
  predicate FreshOffsets(r: Replica, id: nat, kept: map<nat, int>) {
    forall m <- kept :: if m == id then kept[m] < |r.log| else kept[m] == -1
  }

  /** Every tracked offset of a line was reported in it. */
  ghost predicate Vouched(l: Line) {
    forall m <- l.isr :: l.isr[m] <= Reported(l, m)
  }

  ghost predicate AllVouched(s: Cluster) {
    forall n :: 0 <= n < |s.lines| ==> Vouched(s.lines[n])
  }

  // ---------------------------------------------------------------- what every step keeps

  ghost predicate FromMinusOne(offsets: map<nat, int>) {
    forall m <- offsets :: -1 <= offsets[m]
  }

  ghost predicate LineBounded(l: Line) {
    FromMinusOne(l.isr) && FromMinusOne(l.sent)
  }

  ghost predicate ReplicaBounded(s: Cluster, id: nat)
    requires id < |s.replicas|
  {
    var r := s.replicas[id];
    r.line < |s.lines| && FromMinusOne(r.led) && (Leads(s, id, r.line) ==> r.log == s.lines[r.line].log)
  }

  ghost predicate Bounded(s: Cluster) {
    && (forall n :: 0 <= n < |s.lines| ==> LineBounded(s.lines[n]))
    && (forall id :: 0 <= id < |s.replicas| ==> ReplicaBounded(s, id))
  }

  lemma {:induction false} LeftIsBounded(s: Cluster, id: nat)
    requires Bounded(s) && id < |s.replicas|
    ensures FromMinusOne(Left(s, id))
  {
    assert ReplicaBounded(s, id);
    assert Leads(s, id, s.replicas[id].line) ==> LineBounded(s.lines[s.replicas[id].line]);
  }

  /** Only one replica changed, and it does not lead. */
  lemma {:induction false} ReplicaKeepsBounded(s: Cluster, id: nat, r: Replica)
    requires Bounded(s) && id < |s.replicas| && r.line < |s.lines| && FromMinusOne(r.led)
    requires s.lines[r.line].leader == id && 0 < r.line ==> r.log == s.lines[r.line].log
    ensures Bounded(WithReplica(s, id, r))
  {
    var t := WithReplica(s, id, r);
    forall k | 0 <= k < |t.replicas| ensures ReplicaBounded(t, k) {
      assert ReplicaBounded(s, k);
    }
  }

  /** Only one line changed, and nothing in its log. */
  lemma {:induction false} LineKeepsBounded(s: Cluster, n: nat, l: Line)
    requires Bounded(s) && n < |s.lines| && LineBounded(l) && l.leader == s.lines[n].leader && l.log == s.lines[n].log
    ensures Bounded(WithLine(s, n, l))
  {
    var t := WithLine(s, n, l);
    forall k | 0 <= k < |t.replicas| ensures ReplicaBounded(t, k) {
      assert ReplicaBounded(s, k);
    }
  }

  lemma {:induction false} WriteKeepsBounded(s: Cluster, id: nat, payload: string)
    requires Bounded(s) && Enabled(s, Write(id, payload))
    ensures Bounded(Next(s, Write(id, payload)))
  {
    var t := Next(s, Write(id, payload));
    assert LineBounded(s.lines[s.replicas[id].line]);
    forall k | 0 <= k < |t.replicas| ensures ReplicaBounded(t, k) {
      assert ReplicaBounded(s, k);
    }
  }

  lemma {:induction false} ElectKeepsBounded(s: Cluster, id: nat, epoch: nat, kept: map<nat, int>)
    requires Bounded(s) && Enabled(s, Elect(id, epoch, kept))
    ensures FromMinusOne(kept) && Bounded(Next(s, Elect(id, epoch, kept)))
  {
    var t := Next(s, Elect(id, epoch, kept));
    LeftIsBounded(s, id);
    assert ReplicaBounded(s, id);
    forall k | 0 <= k < |t.replicas| ensures ReplicaBounded(t, k) {
      assert ReplicaBounded(s, k);
    }
  }

  lemma {:induction false} ReplicaStepKeepsBounded(s: Cluster, step: Step)
    requires Bounded(s) && Enabled(s, step) && (step.Follow? || step.FollowHW? || step.Fetch? || step.Learn?)
    ensures Bounded(Next(s, step))
  {
    assert ReplicaBounded(s, step.id);
    LeftIsBounded(s, step.id);
    ReplicaKeepsBounded(s, step.id, Next(s, step).replicas[step.id]);
  }

  lemma {:induction false} LineStepKeepsBounded(s: Cluster, step: Step)
    requires Bounded(s) && Enabled(s, step)
    requires step.Request? || step.Track? || step.Report? || step.Propose? || step.Apply? || step.Decide?
    ensures Bounded(Next(s, step))
  {
    var n := if step.Request? then s.replicas[step.id].line else if step.Propose? then |s.lines| - 1 else step.line;
    assert LineBounded(s.lines[n]);
    LineKeepsBounded(s, n, Next(s, step).lines[n]);
  }

  lemma {:induction false} AdvanceKeepsBounded(s: Cluster, line: nat)
    requires Bounded(s) && Enabled(s, Advance(line))
    ensures Bounded(Next(s, Advance(line)))
  {
    var t := Next(s, Advance(line));
    assert LineBounded(s.lines[line]);
    forall k | 0 <= k < |t.replicas| ensures ReplicaBounded(t, k) {
      assert ReplicaBounded(s, k);
    }
  }

  lemma {:induction false} StepKeepsBounded(s: Cluster, step: Step)
    requires Bounded(s) && Enabled(s, step)
    ensures Bounded(Next(s, step))
  {
    match step {
      case Elect(id, epoch, kept) => ElectKeepsBounded(s, id, epoch, kept);
      case Write(id, payload) => WriteKeepsBounded(s, id, payload);
      case Advance(line) => AdvanceKeepsBounded(s, line);
      case Follow(_, _, _) => ReplicaStepKeepsBounded(s, step);
      case FollowHW(_, _) => ReplicaStepKeepsBounded(s, step);
      case Fetch(_) => ReplicaStepKeepsBounded(s, step);
      case Learn(_, _) => ReplicaStepKeepsBounded(s, step);
      case _ => LineStepKeepsBounded(s, step);
    }
  }

  lemma {:induction false} RunKeepsBounded(run: seq<Cluster>, steps: seq<Step>, n: nat)
    requires IsRun(run, steps) && n < |run|
    ensures Bounded(run[n])
  {
    if n == 0 {
    } else {
      RunKeepsBounded(run, steps, n - 1);
      assert StepAt(run, steps, n - 1);
      StepKeepsBounded(run[n - 1], steps[n - 1]);
    }
  }

  // ---------------------------------------------------------------- when tracked offsets are reported ones

  /** If the step is an election, it begins with fresh offsets. */
  predicate FreshAt(s: Cluster, step: Step) {
    step.Elect? ==> step.id < |s.replicas| && FreshOffsets(s.replicas[step.id], step.id, step.kept)
  }

  ghost predicate FreshUntil(run: seq<Cluster>, steps: seq<Step>, n: nat)
    requires |run| == |steps| + 1 && n <= |steps|
  {
    forall i :: 0 <= i < n ==> FreshAt(run[i], steps[i])
  }

  lemma {:induction false} ElectionVouches(s: Cluster, id: nat, epoch: nat, kept: map<nat, int>)
    requires Bounded(s) && Enabled(s, Elect(id, epoch, kept)) && AllVouched(s)
    ensures AllVouched(Next(s, Elect(id, epoch, kept))) <==> FreshOffsets(s.replicas[id], id, kept)
  {
    var t := Next(s, Elect(id, epoch, kept));
    ElectKeepsBounded(s, id, epoch, kept);
    assert Vouched(t.lines[|s.lines|]) <==> FreshOffsets(s.replicas[id], id, kept);
    assert forall n :: 0 <= n < |s.lines| ==> t.lines[n] == s.lines[n];
  }

  lemma {:induction false} OtherStepsVouch(s: Cluster, step: Step)
    requires Bounded(s) && Enabled(s, step) && AllVouched(s) && !step.Elect?
    ensures AllVouched(Next(s, step))
  {
    var t := Next(s, step);
    forall n | 0 <= n < |t.lines| ensures Vouched(t.lines[n]) {
      if step.Write? { assert ReplicaBounded(s, step.id); }
      assert LineBounded(s.lines[n]);
      LineVouches(s, step, n);
    }
  }

  lemma {:induction false} LineVouches(s: Cluster, step: Step, n: nat)
    requires Enabled(s, step) && !step.Elect? && n < |s.lines| && Vouched(s.lines[n]) && LineBounded(s.lines[n])
    requires step.Write? ==> ReplicaBounded(s, step.id)
    ensures n < |Next(s, step).lines| && Vouched(Next(s, step).lines[n])
  {
  }

  /**
   * Over every run: in each state every tracked offset has been reported in its epoch if and only if every new leader
   * began with fresh offsets.
   */
  lemma {:induction false} TrackedIsReported(run: seq<Cluster>, steps: seq<Step>, n: nat)
    requires IsRun(run, steps) && n < |run|
    ensures (forall m :: 0 <= m <= n ==> AllVouched(run[m])) <==> FreshUntil(run, steps, n)
  {
    if n == 0 {
      assert AllVouched(run[0]);
    } else {
      TrackedIsReported(run, steps, n - 1);
      if AllVouched(run[n - 1]) {
        assert StepAt(run, steps, n - 1);
        RunKeepsBounded(run, steps, n - 1);
        VouchedNext(run[n - 1], steps[n - 1], run[n]);
      }
    }
  }

  lemma {:induction false} VouchedNext(s: Cluster, step: Step, t: Cluster)
    requires Bounded(s) && IsStep(s, step, t) && AllVouched(s)
    ensures AllVouched(t) <==> FreshAt(s, step)
  {
    if step.Elect? {
      ElectionVouches(s, step.id, step.epoch, step.kept);
    } else {
      OtherStepsVouch(s, step);
    }
  }

  // ---------------------------------------------------------------- a member since the epoch began

  /** The replica has been in the leader's ISR since the line began. */
  ghost predicate AlwaysInSync(run: seq<Cluster>, n: nat, line: nat, id: nat)
    requires n < |run|
  {
    forall i :: 0 <= i <= n && line < |run[i].lines| ==> id in run[i].lines[line].isr
  }

  /** In every run whose leaders began with fresh offsets, a replica that has been in the ISR since the line began has
      reported all that was committed in it. */
  lemma {:induction false} AlwaysInSyncReported(run: seq<Cluster>, steps: seq<Step>, n: nat, line: nat, id: nat)
    requires IsRun(run, steps) && n < |run| && FreshUntil(run, steps, n)
    requires line < |run[n].lines| && AlwaysInSync(run, n, line, id)
    ensures Reported(run[n].lines[line], id) + 1 >= run[n].lines[line].committed
  {
    if n == 0 {
    } else {
      assert StepAt(run, steps, n - 1);
      if line < |run[n - 1].lines| {
        AlwaysInSyncReported(run, steps, n - 1, line, id);
        RunKeepsBounded(run, steps, n - 1);
        TrackedIsReported(run, steps, n - 1);
        assert AllVouched(run[n - 1]) && id in run[n - 1].lines[line].isr;
        if steps[n - 1].Write? { assert ReplicaBounded(run[n - 1], steps[n - 1].id); }
        StepKeepsReported(run[n - 1], steps[n - 1], line, id);
      } else {
        assert run[n].lines[line].committed == 0;
      }
    }
  }

  lemma {:induction false} StepKeepsReported(s: Cluster, step: Step, line: nat, id: nat)
    requires Enabled(s, step) && line < |s.lines| && id in s.lines[line].isr && Vouched(s.lines[line])
    requires step.Write? ==> ReplicaBounded(s, step.id)
    requires Reported(s.lines[line], id) + 1 >= s.lines[line].committed
    ensures line < |Next(s, step).lines|
    ensures Reported(Next(s, step).lines[line], id) + 1 >= Next(s, step).lines[line].committed
  {
  }
}

/** The replication protocol of one epoch never gets stuck: from every state it can come to, whatever was lost on the
    way, the next batch can be replicated, committed and acknowledged together with all before it. */
module Progress {
  import opened Integers
  import opened Search
  import opened Partition
  import opened Replication

  // ---------------------------------------------------------------- going on from a state

  /** Nothing is published, and nobody joins or leaves the ISR. */
  predicate Quiet(step: Step) {
    !step.SequenceStep? && !step.ShrinkStep? && !step.ExpandStep?
  }

  ghost predicate IsPath(c: Config, path: seq<System>, steps: seq<Step>) {
    |path| == |steps| + 1 && forall i :: 0 <= i < |steps| ==> Quiet(steps[i]) && StepAt(c, path, steps, i)
  }

  /** The protocol can go on from one state to the other by quiet steps. */
  ghost predicate Quietly(c: Config, s: System, t: System) {
    exists path, steps :: IsPath(c, path, steps) && path[0] == s && path[|steps|] == t
  }

  ghost predicate Onward(c: Config, s: System, t: System) {
    Quietly(c, s, t) && Reachable(c, t)
  }

  lemma {:induction false} Here(c: Config, s: System)
    requires Reachable(c, s)
    ensures Onward(c, s, s)
  {
    assert IsPath(c, [s], []);
  }

  lemma {:induction false} Take(c: Config, s: System, t: System, step: Step)
    requires Onward(c, s, t) && Enabled(c, t, step) && Quiet(step)
    ensures Onward(c, s, Next(c, t, step))
  {
    var u := Next(c, t, step);
    var path, steps :| IsPath(c, path, steps) && path[0] == s && path[|steps|] == t;
    forall i | 0 <= i < |steps + [step]| ensures StepAt(c, path + [u], steps + [step], i) {
      assert i < |steps| ==> StepAt(c, path, steps, i);
    }
    assert IsPath(c, path + [u], steps + [step]) && (path + [u])[|steps| + 1] == u;
    StepIsReachable(c, t, step, u);
  }

  // ---------------------------------------------------------------- what holds in every state

  /** The commit loop reads the offsets of the ISR as it is, or has decided, and the leader reports after its batch. */
  ghost predicate LoopInv(c: Config, s: System) {
    && c.minISR > 0 && c.epoch != 0 && (s.leader.reported ==> s.leader.batch == [])
    && (s.reading.Some? ==>
          && s.leader.decision.None? && s.reading.value.Keys == s.leader.isr.Keys
          && forall r <- s.leader.isr :: s.reading.value[r] <= s.leader.isr[r])
  }

  lemma {:induction false} StepKeepsLoop(c: Config, s: System, step: Step, t: System)
    requires LoopInv(c, s) && IsStep(c, s, step, t)
    ensures LoopInv(c, t)
  {
    match step {
      case SequenceStep(_) => SameOffsetsKeepLoop(c, s, t);
      case ProcessStep => SameOffsetsKeepLoop(c, s, t);
      case RequestStep(_) => SameOffsetsKeepLoop(c, s, t);
      case DeliverStep(_) => SameOffsetsKeepLoop(c, s, t);
      case CompleteStep => SameOffsetsKeepLoop(c, s, t);
      case ForeignStep(_, _) => SameOffsetsKeepLoop(c, s, t);
      case _ =>
    }
  }

  lemma {:induction false} SameOffsetsKeepLoop(c: Config, s: System, t: System)
    requires LoopInv(c, s) && t.reading == s.reading && t.leader.isr == s.leader.isr
    requires t.leader.decision.None? || t.leader.decision == s.leader.decision
    requires t.leader.reported ==> t.leader.batch == []
    ensures LoopInv(c, t)
  {
  }

  lemma {:induction false} RunKeepsLoop(c: Config, run: seq<System>, steps: seq<Step>, n: nat)
    requires IsRun(c, run, steps) && n < |run|
    ensures LoopInv(c, run[n])
  {
    if n == 0 {
    } else {
      RunKeepsLoop(c, run, steps, n - 1);
      assert StepAt(c, run, steps, n - 1);
      StepKeepsLoop(c, run[n - 1], steps[n - 1], run[n]);
    }
  }

  lemma {:induction false} ReachableHasInv(c: Config, s: System)
    requires Reachable(c, s)
    ensures Inv(c, s) && LoopInv(c, s)
  {
    var run, steps :| IsRun(c, run, steps) && run[|steps|] == s;
    RunKeepsInv(c, run, steps, |steps|);
    RunKeepsLoop(c, run, steps, |steps|);
  }

  // ---------------------------------------------------------------- a round of replication

  /** What a round leaves alone. */
  ghost predicate SameButTracked(s: System, t: System, r: string) {
    && t.leader == s.leader.(isr := t.leader.isr) && t.leader.isr.Keys == s.leader.isr.Keys
    && (forall x <- s.leader.isr :: s.leader.isr[x] <= t.leader.isr[x])
    && (forall x <- s.leader.isr :: x != r ==> t.leader.isr[x] == s.leader.isr[x])
    && t.reading == s.reading && t.base == s.base && t.followers.Keys == s.followers.Keys
    && forall x <- s.followers :: x != r ==> t.followers[x] == s.followers[x]
  }

  /** The follower has `count` more of the leader's messages and its high watermark, and is tracked at what it had. */
  ghost predicate RoundLeads(s: System, t: System, r: string, count: nat) {
    && r in s.followers && r in t.followers && |s.followers[r].log| + count <= |s.leader.log|
    && t.followers[r] == Follower(s.leader.log[..|s.followers[r].log| + count], Max(s.followers[r].hw, s.leader.hw))
    && SameButTracked(s, t, r)
    && (r in s.leader.isr ==> t.leader.isr[r] == Max(s.leader.isr[r], |s.followers[r].log| - 1))
  }

  lemma {:induction false} RoundEffect(c: Config, s: System, r: string, count: nat, resp: Response, t: System)
    requires r in s.followers && Contiguous(s.leader.log) && s.followers[r].log <= s.leader.log
    requires |s.followers[r].log| + count <= |s.leader.log|
    requires var n := |s.followers[r].log|;
             && (n - 1 < NewestOffset(s.leader.log) ==> n + count <= |s.leader.log|)
             && resp == Respond(c, s.leader, Request(r, n - 1, c.epoch), count)
             && t.leader == UpdateOffset(s.leader, r, n - 1)
    requires t.followers == s.followers[r := Receive(c, s.followers[r], resp)]
    requires t.reading == s.reading && t.base == s.base
    ensures RoundLeads(s, t, r, count)
  {
    Receives(c, s.leader, s.followers[r], r, count);
  }

  lemma {:induction false} FollowerFacts(c: Config, s: System, r: string)
    requires Reachable(c, s) && r in s.followers
    ensures Contiguous(s.leader.log) && s.followers[r].log <= s.leader.log && r in c.replicas - {c.self}
    ensures NewestOffset(s.leader.log) == |s.leader.log| - 1
    ensures NewestOffset(s.followers[r].log) == |s.followers[r].log| - 1
  {
    ReachableHasInv(c, s);
    assert FollowerInv(s.followers[r], s.leader, s.hws0[r]);
    NewestIs(s.leader.log, s.followers[r].log);
  }

  /**
   * In every state a follower can ask, be answered and take the answer. It then has as many more messages as the answer
   * was allowed, and the leader's high watermark; and the leader tracks what it had when it asked.
   */
  lemma {:induction false} Round(c: Config, s0: System, s: System, r: string, count: nat) returns (t: System)
    requires Onward(c, s0, s) && r in s.followers && |s.followers[r].log| + count <= |s.leader.log|
    ensures Onward(c, s0, t) && RoundLeads(s, t, r, count)
  {
    FollowerFacts(c, s, r);
    var a := Ask(c, s0, s, r);
    var resp, b := Serve(c, s0, a, Request(r, |s.followers[r].log| - 1, c.epoch), count);
    t := Give(c, s0, b, resp);
    RoundEffect(c, s, r, count, resp, t);
  }

  lemma {:induction false} Ask(c: Config, s0: System, s: System, r: string) returns (t: System)
    requires Onward(c, s0, s) && r in s.followers
    ensures t == s.(requests := s.requests + {Request(r, NewestOffset(s.followers[r].log), c.epoch)})
    ensures Onward(c, s0, t)
  {
    t := Next(c, s, RequestStep(r));
    Take(c, s0, s, RequestStep(r));
  }

  lemma {:induction false} Serve(c: Config, s0: System, s: System, req: Request, count: nat)
      returns (resp: Response, t: System)
    requires Onward(c, s0, s) && req in s.requests && req.epoch == c.epoch && req.from in c.replicas - {c.self}
    requires req.offset < NewestOffset(s.leader.log) ==> 0 <= req.offset + 1 && req.offset + 1 + count <= |s.leader.log|
    ensures resp == Respond(c, s.leader, req, count)
    ensures t == s.(leader := UpdateOffset(s.leader, req.from, req.offset), responses := s.responses + {resp})
    ensures Onward(c, s0, t)
  {
    resp := Respond(c, s.leader, req, count);
    t := Next(c, s, HandleStep(req, count));
    Take(c, s0, s, HandleStep(req, count));
  }

  lemma {:induction false} Give(c: Config, s0: System, s: System, resp: Response) returns (t: System)
    requires Onward(c, s0, s) && resp in s.responses && resp.to in s.followers
    ensures t == s.(followers := s.followers[resp.to := Receive(c, s.followers[resp.to], resp)])
    ensures Onward(c, s0, t)
  {
    t := Next(c, s, DeliverStep(resp));
    Take(c, s0, s, DeliverStep(resp));
  }

  lemma {:induction false} NewestIs(log: seq<Record>, part: seq<Record>)
    requires Contiguous(log) && part <= log
    ensures NewestOffset(log) == |log| - 1 && NewestOffset(part) == |part| - 1
  {
    assert part != [] ==> part[|part| - 1] == log[|part| - 1];
  }

  lemma {:induction false} Receives(c: Config, l: Leader, f: Follower, r: string, count: nat)
    requires Contiguous(l.log) && f.log <= l.log && |f.log| + count <= |l.log|
    ensures var n := |f.log|;
            && (n - 1 < NewestOffset(l.log) ==> n + count <= |l.log|)
            && var g := Receive(c, f, Respond(c, l, Request(r, n - 1, c.epoch), count));
               g.log == l.log[..n + count] && g.hw == Max(f.hw, l.hw)
  {
    NewestIs(l.log, f.log);
    var n := |f.log|;
    assert l.log[..n + count] == l.log[..n] + l.log[n..n + count] && l.log[..n] == f.log;
    assert count > 0 ==> l.log[n..n + count][0] == l.log[n];
  }

  // ---------------------------------------------------------------- the leader's own loops

  /** The log and the members of the ISR stay, tracked offsets do not fall, and followers lose nothing. */
  ghost predicate Keeps(s: System, t: System) {
    && t.leader.log == s.leader.log && t.base == s.base
    && t.leader.isr.Keys == s.leader.isr.Keys && t.followers.Keys == s.followers.Keys
    && (forall r <- s.leader.isr :: s.leader.isr[r] <= t.leader.isr[r])
    && forall r <- s.followers :: s.followers[r].log <= t.followers[r].log
  }

  lemma {:induction false} KeepsOn(s: System, t: System, u: System)
    requires Keeps(s, t) && Keeps(t, u)
    ensures Keeps(s, u)
  {
  }

  /** The whole batch is on the commit queue, */
  lemma {:induction false} Drain(c: Config, s0: System, s: System) returns (t: System)
    requires Onward(c, s0, s)
    ensures Onward(c, s0, t) && Keeps(s, t) && t.leader.batch == []
    ensures t.leader.isr == s.leader.isr && t.reading == s.reading && t.leader.decision == s.leader.decision
    ensures t.leader.reported == s.leader.reported
    decreases |s.leader.batch|
  {
    if s.leader.batch == [] {
      t := s;
    } else {
      var a := s.(leader := ProcessPending(s.leader));
      Take(c, s0, s, ProcessStep);
      t := Drain(c, s0, a);
    }
  }

  /** the leader has reported its own offset, */
  lemma {:induction false} ReportOwn(c: Config, s0: System, s: System) returns (t: System)
    requires Onward(c, s0, s) && s.leader.batch == []
    ensures Onward(c, s0, t) && Keeps(s, t) && t.leader.batch == [] && t.leader.reported
    ensures t.reading == s.reading && t.leader.decision == s.leader.decision
    ensures !s.leader.reported && c.self in s.leader.isr ==> t.leader.isr[c.self] >= NewestOffset(s.leader.log)
  {
    if s.leader.reported {
      t := s;
    } else {
      t := s.(leader := ReportSelf(s.leader, c.self));
      Take(c, s0, s, ReportStep);
    }
  }

  lemma {:induction false} Least(isr: map<string, int>) returns (m: int)
    ensures IsMin(isr, m)
    decreases |isr|
  {
    if isr == map[] {
      m := 0;
    } else {
      var r :| r in isr;
      var rest := isr - {r};
      assert isr == rest[r := isr[r]];
      m := Least(rest);
      if rest == map[] || isr[r] < m {
        m := isr[r];
      }
    }
  }

  /** the decision in progress is taken, */
  lemma {:induction false} FinishReading(c: Config, s0: System, s: System) returns (t: System)
    requires Onward(c, s0, s)
    ensures Onward(c, s0, t) && Keeps(s, t) && t.reading.None?
    ensures t.leader == s.leader.(decision := t.leader.decision)
  {
    if s.reading.None? {
      t := s;
    } else {
      ReachableHasInv(c, s);
      var m := Least(s.leader.isr);
      t := s.(leader := Decide(s.leader, m), reading := None);
      assert Enabled(c, s, DecideStep(s.leader.isr, m));
      Take(c, s0, s, DecideStep(s.leader.isr, m));
    }
  }

  /** and the one taken is carried out. */
  lemma {:induction false} FinishDecision(c: Config, s0: System, s: System) returns (t: System)
    requires Onward(c, s0, s) && s.reading.None?
    ensures Onward(c, s0, t) && Keeps(s, t) && t.reading.None? && t.leader.decision.None?
    ensures t.leader.batch == s.leader.batch && t.leader.reported == s.leader.reported
  {
    if s.leader.decision.None? {
      t := s;
    } else {
      t := s.(leader := Complete(s.leader));
      Take(c, s0, s, CompleteStep);
    }
  }

  ghost predicate Idle(s: System) {
    s.leader.batch == [] && s.leader.reported && s.reading.None? && s.leader.decision.None?
  }

  /** So the leader's loops can always come to rest. */
  lemma {:induction false} Settle(c: Config, s0: System, s: System) returns (t: System)
    requires Onward(c, s0, s)
    ensures Onward(c, s0, t) && Keeps(s, t) && Idle(t)
    ensures !s.leader.reported && c.self in s.leader.isr ==> t.leader.isr[c.self] >= NewestOffset(s.leader.log)
  {
    var a := Drain(c, s0, s);
    var b := ReportOwn(c, s0, a);
    KeepsOn(s, a, b);
    var d := FinishReading(c, s0, b);
    KeepsOn(s, b, d);
    t := FinishDecision(c, s0, d);
    KeepsOn(s, d, t);
  }

  // ---------------------------------------------------------------- catching up

  ghost predicate UpToDate(s: System, r: string) {
    && r in s.followers && s.followers[r].log == s.leader.log
    && (r in s.leader.isr ==> |s.leader.log| - 1 <= s.leader.isr[r])
  }

  lemma {:induction false} RoundKeeps(s: System, t: System, r: string, count: nat)
    requires RoundLeads(s, t, r, count) && s.followers[r].log <= s.leader.log
    ensures Keeps(s, t) && (Idle(s) ==> Idle(t))
  {
  }

  /** Two rounds bring a follower up to date: one for the messages, one for the leader to learn that it has them. */
  lemma {:induction false} CatchUp(c: Config, s0: System, s: System, r: string) returns (t: System)
    requires Onward(c, s0, s) && r in s.followers && Idle(s)
    ensures Onward(c, s0, t) && Keeps(s, t) && Idle(t) && UpToDate(t, r)
  {
    FollowerFacts(c, s, r);
    var a := Round(c, s0, s, r, |s.leader.log| - |s.followers[r].log|);
    RoundKeeps(s, a, r, |s.leader.log| - |s.followers[r].log|);
    assert a.followers[r].log == s.leader.log;
    t := Round(c, s0, a, r, 0);
    RoundKeeps(a, t, r, 0);
    KeepsOn(s, a, t);
  }

  lemma {:induction false} StaysUpToDate(c: Config, s: System, t: System, r: string)
    requires UpToDate(s, r) && Keeps(s, t) && Reachable(c, t)
    ensures UpToDate(t, r)
  {
    FollowerFacts(c, t, r);
  }

  lemma {:induction false} AllCatchUp(c: Config, s0: System, s: System, rest: set<string>) returns (t: System)
    requires Onward(c, s0, s) && rest <= s.followers.Keys && Idle(s)
    ensures Onward(c, s0, t) && Keeps(s, t) && Idle(t) && forall r <- rest :: UpToDate(t, r)
    decreases |rest|
  {
    if rest == {} {
      t := s;
    } else {
      var r :| r in rest;
      var a := AllCatchUp(c, s0, s, rest - {r});
      t := CatchUp(c, s0, a, r);
      KeepsOn(s, a, t);
      forall x | x in rest - {r} ensures UpToDate(t, x) {
        StaysUpToDate(c, a, t, x);
      }
    }
  }

  // ---------------------------------------------------------------- committing

  /** Everything in the log is committed and off the queue. */
  ghost predicate AllCommitted(s: System) {
    s.leader.hw >= |s.leader.log| - 1 && Taken(s.leader) == |s.leader.log|
  }

  lemma {:induction false} Commit(c: Config, s0: System, s: System) returns (t: System)
    requires Onward(c, s0, s) && Idle(s) && |s.leader.isr| >= c.minISR
    requires forall r <- s.leader.isr :: |s.leader.log| - 1 <= s.leader.isr[r]
    ensures Onward(c, s0, t) && Keeps(s, t) && AllCommitted(t) && t.followers == s.followers
  {
    var m, a := DecideNow(c, s0, s);
    MinimumSize(c, s);
    t := a.(leader := Complete(a.leader));
    Take(c, s0, a, CompleteStep);
    CommitEffect(c, a, m);
  }

  lemma {:induction false} DecideNow(c: Config, s0: System, s: System) returns (m: int, t: System)
    requires Onward(c, s0, s) && Idle(s) && |s.leader.isr| >= c.minISR
    ensures Onward(c, s0, t) && IsMin(s.leader.isr, m) && t == s.(leader := Decide(s.leader, m))
  {
    m := Least(s.leader.isr);
    var a := s.(reading := Some(s.leader.isr));
    Take(c, s0, s, BeginStep);
    t := s.(leader := Decide(s.leader, m));
    assert Enabled(c, a, DecideStep(s.leader.isr, m)) && t == Next(c, a, DecideStep(s.leader.isr, m));
    Take(c, s0, a, DecideStep(s.leader.isr, m));
  }

  lemma {:induction false} MinimumSize(c: Config, s: System)
    requires Reachable(c, s) && |s.leader.isr| >= c.minISR
    ensures s.leader.isr != map[]
  {
    ReachableHasInv(c, s);
  }

  lemma {:induction false} CommitEffect(c: Config, s: System, m: int)
    requires Reachable(c, s) && s.leader.batch == [] && s.leader.decision.Some?
    requires s.leader.decision.value.min == m >= |s.leader.log| - 1
    ensures AllCommitted(s.(leader := Complete(s.leader)))
  {
    ReachableHasInv(c, s);
    CompleteServes(s.leader, s.base, s.hw0);
  }

  /** The messages follow what was there. */
  ghost predicate Appends(before: seq<Record>, after: seq<Record>, msgs: seq<Message>) {
    && before <= after && |after| == |before| + |msgs|
    && forall i :: 0 <= i < |msgs| ==> after[|before| + i] == Record(|before| + i, msgs[i])
  }

  /** The acknowledgements for policy ALL are those of all messages of the epoch that ask for one. */
  ghost predicate AllAcknowledged(s: System) {
    forall o: int :: o in Offsets(s.leader.acks) <==>
      s.base <= o < |s.leader.log| && s.leader.log[o].message.policy == ALL && s.leader.log[o].message.ackInbox != ""
  }

  /**
   * From every state the protocol can come to in which the ISR has its minimum size, the next batch can be appended,
   * stored by every replica, committed and acknowledged, and so can everything before it.
   */
  lemma {:induction false} NextBatchCommits(c: Config, s: System, msgs: seq<Message>)
      returns (a: System, b: System, t: System)
    requires Reachable(c, s) && |s.leader.isr| >= c.minISR && msgs != []
    ensures Quietly(c, s, a) && IsStep(c, a, SequenceStep(msgs), b) && Quietly(c, b, t)
    ensures t.leader.isr.Keys == s.leader.isr.Keys && t.base == s.base && Appends(s.leader.log, t.leader.log, msgs)
    ensures forall r <- t.followers :: t.followers[r].log == t.leader.log
    ensures t.leader.hw >= |t.leader.log| - 1 && AllAcknowledged(t)
  {
    Here(c, s);
    a := Settle(c, s, s);
    b := Publish(c, a, msgs);
    Here(c, b);
    var d := Settle(c, b, b);
    var e := AllCatchUp(c, b, d, d.followers.Keys);
    EveryMemberHas(c, d, e);
    t := Commit(c, b, e);
    AcknowledgesAll(c, t);
  }

  lemma {:induction false} Publish(c: Config, s: System, msgs: seq<Message>) returns (t: System)
    requires Reachable(c, s) && Idle(s) && msgs != []
    ensures IsStep(c, s, SequenceStep(msgs), t) && Reachable(c, t)
    ensures Appends(s.leader.log, t.leader.log, msgs) && NewestOffset(t.leader.log) == |t.leader.log| - 1
    ensures t == s.(leader := s.leader.(log := t.leader.log, batch := t.leader.batch, reported := false))
  {
    t := s.(leader := Append(s.leader, msgs));
    StepIsReachable(c, s, SequenceStep(msgs), t);
    ReachableHasInv(c, s);
    NewestIs(s.leader.log, s.leader.log);
  }

  lemma {:induction false} EveryMemberHas(c: Config, s: System, t: System)
    requires Reachable(c, t) && Keeps(s, t) && (forall r <- s.followers.Keys :: UpToDate(t, r))
    requires c.self in s.leader.isr ==> s.leader.isr[c.self] >= |s.leader.log| - 1
    ensures forall r <- t.leader.isr :: |t.leader.log| - 1 <= t.leader.isr[r]
  {
    ReachableHasInv(c, t);
    forall r | r in t.leader.isr ensures |t.leader.log| - 1 <= t.leader.isr[r] {
      assert r != c.self ==> UpToDate(t, r);
    }
  }

  lemma {:induction false} AcknowledgesAll(c: Config, s: System)
    requires Reachable(c, s) && AllCommitted(s)
    ensures AllAcknowledged(s)
  {
    ReachableHasInv(c, s);
    DueExact(s.leader.log, s.base, |s.leader.log|, ALL);
  }

  // ---------------------------------------------------------------- committing without publishing

  /** The leader holds itself back: the offset it tracks of itself is below the end of its log. */
  predicate HeldBack(c: Config, s: System) {
    c.self in s.leader.isr && s.leader.isr[c.self] < |s.leader.log| - 1
  }

  /** What quiet steps lead to while it does: nothing past that offset is decided on. */
  ghost predicate StillHeld(c: Config, t: System, log: seq<Record>, own: int, hw: int) {
    && t.leader.log == log && t.leader.batch == [] && t.leader.reported && hw <= t.leader.hw <= Max(hw, own)
    && c.self in t.leader.isr && t.leader.isr[c.self] == own
    && (t.leader.decision.Some? ==> t.leader.decision.value.min <= own)
  }

  lemma {:induction false} QuietStepHolds(c: Config, s: System, step: Step, t: System, log: seq<Record>, own: int,
        hw: int)
    requires LoopInv(c, s) && IsStep(c, s, step, t) && Quiet(step) && StillHeld(c, s, log, own, hw)
    ensures StillHeld(c, t, log, own, hw)
  {
  }

  lemma {:induction false} QuietPathHolds(c: Config, path: seq<System>, steps: seq<Step>, n: nat)
    requires IsPath(c, path, steps) && n < |path| && LoopInv(c, path[0]) && Idle(path[0]) && HeldBack(c, path[0])
    ensures var l := path[0].leader;
            LoopInv(c, path[n]) && StillHeld(c, path[n], l.log, l.isr[c.self], l.hw)
  {
    if n == 0 {
    } else {
      var l := path[0].leader;
      QuietPathHolds(c, path, steps, n - 1);
      assert StepAt(c, path, steps, n - 1) && Quiet(steps[n - 1]);
      StepKeepsLoop(c, path[n - 1], steps[n - 1], path[n]);
      QuietStepHolds(c, path[n - 1], steps[n - 1], path[n], l.log, l.isr[c.self], l.hw);
    }
  }

  lemma {:induction false} HeldBackStays(c: Config, s: System, t: System)
    requires Reachable(c, s) && Idle(s) && HeldBack(c, s) && Quietly(c, s, t)
    ensures s.leader.hw <= t.leader.hw <= Max(s.leader.hw, s.leader.isr[c.self])
  {
    ReachableHasInv(c, s);
    var path, steps :| IsPath(c, path, steps) && path[0] == s && path[|steps|] == t;
    QuietPathHolds(c, path, steps, |steps|);
  }

  /**
   * An idle leader whose ISR has its minimum size can commit its whole log without anything being published if and only
   * if it does not hold itself back, or the log is committed already. A server does not update its own offset when it
   * becomes leader, so what it has from earlier epochs can wait for the next message.
   */
  lemma {:induction false} CommitsUnaided(c: Config, s: System)
    requires Reachable(c, s) && Idle(s) && |s.leader.isr| >= c.minISR
    ensures (exists t :: Quietly(c, s, t) && t.leader.hw >= |s.leader.log| - 1) <==>
            s.leader.hw >= |s.leader.log| - 1 || !HeldBack(c, s)
  {
    Here(c, s);
    if s.leader.hw < |s.leader.log| - 1 {
      if HeldBack(c, s) {
        forall t | Quietly(c, s, t) ensures t.leader.hw < |s.leader.log| - 1 {
          HeldBackStays(c, s, t);
        }
      } else {
        var a := AllCatchUp(c, s, s, s.followers.Keys);
        EveryMemberHas(c, s, a);
        var t := Commit(c, s, a);
        assert Quietly(c, s, t) && t.leader.hw >= |s.leader.log| - 1;
      }
    }
  }
}

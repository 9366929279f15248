/** The replication and commit protocol of one leader epoch, over every interleaving of the leader's loops, the
    followers, ISR changes and a network that drops, duplicates and reorders. */
module Replication {
  import opened Integers
  import opened Search
  import opened Partition

  datatype System = System(
    leader: Leader,
    reading: Option<map<string, int>>,  // the offsets when the commit loop began to read them
    followers: map<string, Follower>,
    requests: set<Request>,             // every message ever sent
    responses: set<Response>,
    // History: the leader's log length, the high watermarks and the tracked offsets when the epoch began, and who never
    // left the ISR since.
    base: nat,
    hw0: int,
    hws0: map<string, int>,
    tracked0: map<string, int>,
    steady: set<string>)

  datatype Step =
    | SequenceStep(msgs: seq<Message>)
    | ProcessStep
    | ReportStep
    | RequestStep(id: string)
    | HandleStep(req: Request, count: nat)
    | DeliverStep(resp: Response)
    | BeginStep
    | DecideStep(read: map<string, int>, min: int)
    | CompleteStep
    | ShrinkStep(id: string)
    | ExpandStep(id: string)
    | ForeignStep(foreignReq: Request, foreignResp: Response)

  // ---------------------------------------------------------------- steps

  ghost predicate Enabled(c: Config, s: System, step: Step) {
    match step
    case SequenceStep(msgs) => s.leader.batch == [] && s.leader.reported && msgs != []
    case ProcessStep => s.leader.batch != []
    case ReportStep => s.leader.batch == [] && !s.leader.reported
    case RequestStep(id) => id in s.followers
    case HandleStep(req, count) =>
      && req in s.requests
      && (req.offset < NewestOffset(s.leader.log) ==> 0 <= req.offset + 1 && req.offset + 1 + count <= |s.leader.log|)
    case DeliverStep(resp) => resp in s.responses && resp.to in s.followers
    case BeginStep => s.leader.decision.None? && s.reading.None? && |s.leader.isr| >= c.minISR
    case DecideStep(read, m) =>
      // The offsets are read one by one while they go on rising; the lock keeps the ISR as it is.
      && s.reading.Some? && read.Keys == s.reading.value.Keys == s.leader.isr.Keys
      && (forall r <- read :: s.reading.value[r] <= read[r] <= s.leader.isr[r])
      && IsMin(read, m)
    case CompleteStep => s.leader.decision.Some?
    case ShrinkStep(id) => id in c.replicas && s.reading.None?
    case ExpandStep(id) => id in c.replicas && s.reading.None?
    case ForeignStep(req, resp) => req.epoch != 0 && req.epoch != c.epoch && resp.epoch != c.epoch
  }

  function Next(c: Config, s: System, step: Step): System
    requires Enabled(c, s, step)
  {
    match step
    case SequenceStep(msgs) => s.(leader := Append(s.leader, msgs))
    case ProcessStep => s.(leader := ProcessPending(s.leader))
    case ReportStep => s.(leader := ReportSelf(s.leader, c.self))
    case RequestStep(id) => s.(requests := s.requests + {Request(id, NewestOffset(s.followers[id].log), c.epoch)})
    case HandleStep(req, count) =>
      if !Accepts(c, req) then s
      else s.(leader := UpdateOffset(s.leader, req.from, req.offset),
              responses := s.responses + {Respond(c, s.leader, req, count)})
    case DeliverStep(resp) => s.(followers := s.followers[resp.to := Receive(c, s.followers[resp.to], resp)])
    case BeginStep => s.(reading := Some(s.leader.isr))
    case DecideStep(_, m) => s.(leader := Decide(s.leader, m), reading := None)
    case CompleteStep => s.(leader := Complete(s.leader))
    case ShrinkStep(id) => s.(leader := Shrink(s.leader, id), steady := s.steady - {id})
    case ExpandStep(id) => s.(leader := Expand(s.leader, id))
    case ForeignStep(req, resp) => s.(requests := s.requests + {req}, responses := s.responses + {resp})
  }

  ghost predicate IsStep(c: Config, s: System, step: Step, t: System) {
    Enabled(c, s, step) && t == Next(c, s, step)
  }

  /** An epoch begins with followers that hold prefixes of the leader's log. High watermarks may be anything, and so may
      the tracked offsets, which a server keeps from one time it leads to the next. */
  ghost predicate Init(c: Config, s: System) {
    && c.self in c.replicas && c.epoch != 0 && c.minISR > 0
    && s.followers.Keys == s.hws0.Keys == c.replicas - {c.self}
    && Contiguous(s.leader.log)
    && s.base == |s.leader.log| && s.hw0 == s.leader.hw && -1 <= s.hw0
    && s.leader.batch == [] && s.leader.reported && s.leader.queue == [] && s.leader.decision.None? && s.reading.None?
    && s.leader.early == [] && s.leader.acks == []
    && s.leader.isr.Keys <= c.replicas && s.steady == s.leader.isr.Keys && s.tracked0 == s.leader.isr
    && (forall r <- s.followers :: s.followers[r].log <= s.leader.log && s.followers[r].hw == s.hws0[r])
    && (forall req :: req in s.requests ==> req.epoch != 0 && req.epoch != c.epoch)
    && (forall resp :: resp in s.responses ==> resp.epoch != c.epoch)
  }

  ghost predicate IsRun(c: Config, run: seq<System>, steps: seq<Step>) {
    && |run| == |steps| + 1
    && Init(c, run[0])
    && forall i :: 0 <= i < |steps| ==> StepAt(c, run, steps, i)
  }

  ghost predicate StepAt(c: Config, run: seq<System>, steps: seq<Step>, i: nat)
    requires i < |steps| && |run| == |steps| + 1
  {
    IsStep(c, run[i], steps[i], run[i + 1])
  }

  /** Some run ends in this state. */
  ghost predicate Reachable(c: Config, s: System) {
    exists run, steps :: IsRun(c, run, steps) && run[|steps|] == s
  }

  lemma {:induction false} StartIsReachable(c: Config, s: System)
    requires Init(c, s)
    ensures Reachable(c, s)
  {
    assert IsRun(c, [s], []);
  }

  lemma {:induction false} StepIsReachable(c: Config, s: System, step: Step, t: System)
    requires Reachable(c, s) && IsStep(c, s, step, t)
    ensures Reachable(c, t)
  {
    var run, steps :| IsRun(c, run, steps) && run[|steps|] == s;
    ExtendRun(c, run, steps, step, t);
    assert (run + [t])[|steps| + 1] == t;
  }

  lemma {:induction false} ExtendRun(c: Config, run: seq<System>, steps: seq<Step>, step: Step, t: System)
    requires IsRun(c, run, steps) && IsStep(c, run[|steps|], step, t)
    ensures IsRun(c, run + [t], steps + [step])
  {
    forall i | 0 <= i < |steps + [step]| ensures StepAt(c, run + [t], steps + [step], i) {
      if i < |steps| { assert StepAt(c, run, steps, i); }
    }
  }

  // ---------------------------------------------------------------- acknowledgements that are due

  /** The offsets in `lo..hi` whose messages ask for an acknowledgement of the policy. */
  function Due(log: seq<Record>, lo: nat, hi: nat, policy: AckPolicy): (offsets: seq<int>)
    requires hi <= |log|
    decreases hi
  {
    if hi <= lo then []
    else Due(log, lo, hi - 1, policy) + if Wants(log[hi - 1], policy) then [log[hi - 1].offset] else []
  }

  lemma {:induction false} DueSplits(log: seq<Record>, a: nat, b: nat, c: nat, policy: AckPolicy)
    requires a <= b <= c <= |log|
    ensures Due(log, a, c, policy) == Due(log, a, b, policy) + Due(log, b, c, policy)
    decreases c
  {
    if b == c {
    } else {
      DueSplits(log, a, b, c - 1, policy);
    }
  }

  lemma {:induction false} DueOfPrefix(log: seq<Record>, longer: seq<Record>, lo: nat, hi: nat, policy: AckPolicy)
    requires hi <= |log| && log <= longer
    ensures Due(longer, lo, hi, policy) == Due(log, lo, hi, policy)
    decreases hi
  {
    if hi <= lo {
    } else {
      DueOfPrefix(log, longer, lo, hi - 1, policy);
      assert longer[hi - 1] == log[hi - 1];
    }
  }

  ghost predicate Increasing(offsets: seq<int>) {
    forall i, j :: 0 <= i < j < |offsets| ==> offsets[i] < offsets[j]
  }

  lemma {:induction false} DueMembers(log: seq<Record>, lo: nat, hi: nat, policy: AckPolicy, o: int)
    requires hi <= |log| && Contiguous(log)
    ensures o in Due(log, lo, hi, policy) <==> lo <= o < hi && Wants(log[o], policy)
    decreases hi
  {
    if hi <= lo {
    } else {
      DueMembers(log, lo, hi - 1, policy, o);
    }
  }

  lemma {:induction false} DueRises(log: seq<Record>, lo: nat, hi: nat, policy: AckPolicy)
    requires hi <= |log| && Contiguous(log)
    ensures Increasing(Due(log, lo, hi, policy))
    decreases hi
  {
    if hi <= lo {
    } else {
      DueRises(log, lo, hi - 1, policy);
      var d := Due(log, lo, hi - 1, policy);
      forall i | 0 <= i < |d| ensures d[i] < hi - 1 {
        DueMembers(log, lo, hi - 1, policy, d[i]);
      }
    }
  }

  /** Exactly the offsets in the range that ask for it, each once and in order. */
  lemma {:induction false} DueExact(log: seq<Record>, lo: nat, hi: nat, policy: AckPolicy)
    requires hi <= |log| && Contiguous(log)
    ensures forall o: int :: o in Due(log, lo, hi, policy) <==> lo <= o < hi && Wants(log[o], policy)
    ensures Increasing(Due(log, lo, hi, policy))
  {
    DueRises(log, lo, hi, policy);
    forall o: int ensures o in Due(log, lo, hi, policy) <==> lo <= o < hi && Wants(log[o], policy) {
      DueMembers(log, lo, hi, policy, o);
    }
  }

  function Offsets(acks: seq<Ack>): seq<int> {
    seq(|acks|, i requires 0 <= i < |acks| => acks[i].offset)
  }

  lemma {:induction false} AcksAreDue(log: seq<Record>, lo: nat, hi: nat, rs: seq<Record>, members: set<string>)
    requires lo <= hi <= |log| && rs == log[lo..hi]
    ensures Offsets(AcksFor(rs, members)) == Due(log, lo, hi, ALL)
    ensures forall a :: a in AcksFor(rs, members) ==>
            a.members == members && exists i :: lo <= i < hi && a.offset == log[i].offset
    decreases hi
  {
    if lo == hi {
    } else {
      assert rs[..|rs| - 1] == log[lo..hi - 1];
      AcksAreDue(log, lo, hi - 1, rs[..|rs| - 1], members);
      var head := AcksFor(rs[..|rs| - 1], members);
      forall a | a in AcksFor(rs, members)
        ensures a.members == members && exists i :: lo <= i < hi && a.offset == log[i].offset
      {
        if a !in head { assert a.offset == log[hi - 1].offset; }
      }
    }
  }

  // ---------------------------------------------------------------- the invariant

  function Queued(l: Leader): int {
    |l.log| - |l.batch|
  }

  /** How far the commit queue has been served. */
  function Taken(l: Leader): int {
    Queued(l) - |l.queue|
  }

  ghost predicate Contiguous(log: seq<Record>) {
    forall i :: 0 <= i < |log| ==> log[i].offset == i
  }

  /** `rs` is the part of the log from `lo` up to `hi`. */
  ghost predicate IsSlice(rs: seq<Record>, log: seq<Record>, lo: int, hi: int) {
    0 <= lo <= hi <= |log| && |rs| == hi - lo && forall i :: 0 <= i < |rs| ==> rs[i] == log[lo + i]
  }

  /** The commit queue holds exactly the records of this epoch that were put on it and not served, and none is served
      before the high watermark has reached it. */
  ghost predicate QueueInv(log: seq<Record>, queue: seq<Record>, base: nat, hw: int, taken: int, queued: int) {
    -1 <= hw && base <= taken <= Max(base, hw + 1) && IsSlice(queue, log, taken, queued)
  }

  /** Acknowledged are exactly the messages of this epoch that asked for it: for LEADER once they are on the queue,
      for ALL once they are served. */
  ghost predicate AckInv(log: seq<Record>, early: seq<int>, acks: seq<Ack>, base: nat, taken: int, queued: int) {
    && 0 <= taken <= queued <= |log|
    && early == Due(log, base, queued, LEADER)
    && Offsets(acks) == Due(log, base, taken, ALL)
  }

  ghost predicate LeaderOk(l: Leader, base: nat, hw0: int) {
    && Contiguous(l.log)
    && -1 <= hw0 <= l.hw
    && IsSlice(l.batch, l.log, Queued(l), |l.log|)
    && QueueInv(l.log, l.queue, base, l.hw, Taken(l), Queued(l))
    && AckInv(l.log, l.early, l.acks, base, Taken(l), Queued(l))
  }

  ghost predicate LeaderInv(s: System) {
    LeaderOk(s.leader, s.base, s.hw0)
  }

  /** The record at an offset is stored by a replica. */
  predicate Stores(c: Config, s: System, r: string, offset: int) {
    if r == c.self then offset < Queued(s.leader)
    else r in s.followers && offset < |s.followers[r].log|
  }

  /** What is tracked of a replica is claimed: stored by it, or no higher than the epoch began with. */
  predicate Claimed(c: Config, s: System, r: string, offset: int) {
    Stores(c, s, r, offset) || (r in s.tracked0 && offset <= s.tracked0[r]) || offset <= -1
  }

  ghost predicate FollowerInv(f: Follower, l: Leader, hw0: int) {
    f.log <= l.log && hw0 <= f.hw <= Max(hw0, l.hw)
  }

  ghost predicate FollowersInv(c: Config, s: System) {
    && c.self in c.replicas && s.followers.Keys == s.hws0.Keys == c.replicas - {c.self}
    && forall r <- s.followers :: FollowerInv(s.followers[r], s.leader, s.hws0[r])
  }

  ghost predicate TrackedInv(c: Config, s: System) {
    s.leader.isr.Keys <= c.replicas && forall r <- s.leader.isr :: Claimed(c, s, r, s.leader.isr[r])
  }

  ghost predicate Sufficient(c: Config, s: System, members: set<string>, offset: int) {
    && 0 < c.minISR <= |members| && members <= c.replicas
    && forall r <- members :: Claimed(c, s, r, offset)
  }

  ghost predicate CommitInv(c: Config, s: System) {
    && (s.reading.Some? ==> |s.leader.isr| >= c.minISR > 0)
    && (s.leader.decision.Some? ==>
          var d := s.leader.decision.value;
          Sufficient(c, s, d.members, d.min) && s.steady <= d.members)
    && (forall a :: a in s.leader.acks ==> Sufficient(c, s, a.members, a.offset))
    && s.steady <= s.leader.isr.Keys
    && (forall r <- s.steady :: s.leader.hw == s.hw0 || Claimed(c, s, r, s.leader.hw))
  }

  ghost predicate GoodRequest(c: Config, s: System, req: Request) {
    req.epoch == c.epoch || req.epoch == 0 ==>
      req.epoch != 0 && req.from in s.followers && -1 <= req.offset < |s.followers[req.from].log|
  }

  ghost predicate GoodResponse(c: Config, s: System, resp: Response) {
    resp.epoch == c.epoch ==>
      && resp.to in s.followers && resp.hw <= s.leader.hw
      && (resp.data != [] ==>
            var start := resp.data[0].offset;
            && 0 <= start <= |s.followers[resp.to].log|
            && start + |resp.data| <= |s.leader.log|
            && resp.data == s.leader.log[start..start + |resp.data|])
  }

  ghost predicate NetInv(c: Config, s: System) {
    && (forall req :: req in s.requests ==> GoodRequest(c, s, req))
    && (forall resp :: resp in s.responses ==> GoodResponse(c, s, resp))
  }

  ghost predicate Inv(c: Config, s: System) {
    LeaderInv(s) && FollowersInv(c, s) && TrackedInv(c, s) && CommitInv(c, s) && NetInv(c, s)
  }

  // ---------------------------------------------------------------- logs only grow

  ghost predicate Grows(s: System, t: System) {
    && s.leader.log <= t.leader.log && s.leader.hw <= t.leader.hw && Queued(s.leader) <= Queued(t.leader)
    && s.followers.Keys == t.followers.Keys && s.tracked0 == t.tracked0 && s.base == t.base
    && forall r :: r in s.followers ==> s.followers[r].log <= t.followers[r].log
  }

  lemma {:induction false} NetStable(c: Config, s: System, t: System)
    requires NetInv(c, s) && Grows(s, t)
    ensures forall req :: req in s.requests ==> GoodRequest(c, t, req)
    ensures forall resp :: resp in s.responses ==> GoodResponse(c, t, resp)
  {
  }

  lemma {:induction false} CommitStable(c: Config, s: System, t: System)
    requires CommitInv(c, s) && Grows(s, t)
    requires t.leader.decision == s.leader.decision && t.leader.acks == s.leader.acks && t.leader.hw == s.leader.hw
    requires t.steady <= s.steady && t.steady <= t.leader.isr.Keys && t.hw0 == s.hw0 && t.tracked0 == s.tracked0
    requires t.reading.Some? ==> |t.leader.isr| >= c.minISR > 0
    ensures CommitInv(c, t)
  {
  }

  // ---------------------------------------------------------------- every step keeps the invariant

  /** Steps that change only the tracked offsets. */
  lemma {:induction false} TrackingKeepsInv(c: Config, s: System, t: System)
    requires Inv(c, s)
    requires t == s.(leader := s.leader.(isr := t.leader.isr, reported := t.leader.reported), steady := t.steady)
    requires TrackedInv(c, t) && t.steady <= s.steady && t.steady <= t.leader.isr.Keys
    requires s.reading.Some? ==> t.leader.isr.Keys == s.leader.isr.Keys
    ensures Inv(c, t)
  {
    assert |t.leader.isr| == |t.leader.isr.Keys| && |s.leader.isr| == |s.leader.isr.Keys|;
    assert LeaderInv(t);
    NetStable(c, s, t);
    CommitStable(c, s, t);
  }

  lemma {:induction false} AppendKeepsAcks(log: seq<Record>, rs: seq<Record>, early: seq<int>, acks: seq<Ack>,
      base: nat, taken: int, queued: int)
    requires AckInv(log, early, acks, base, taken, queued)
    ensures AckInv(log + rs, early, acks, base, taken, queued)
  {
    DueOfPrefix(log, log + rs, base, queued, LEADER);
    DueOfPrefix(log, log + rs, base, taken, ALL);
  }

  lemma {:induction false} SequenceKeepsLeader(l: Leader, base: nat, hw0: int, msgs: seq<Message>)
    requires LeaderOk(l, base, hw0) && l.batch == []
    ensures LeaderOk(Append(l, msgs), base, hw0)
  {
    var t := Append(l, msgs);
    AppendKeepsAcks(l.log, Sequenced(NewestOffset(l.log) + 1, msgs), l.early, l.acks, base, Taken(l), |l.log|);
    assert Queued(t) == Queued(l) && Taken(t) == Taken(l);
  }

  lemma {:induction false} SequenceKeepsInv(c: Config, s: System, msgs: seq<Message>)
    requires Inv(c, s) && Enabled(c, s, SequenceStep(msgs))
    ensures Inv(c, Next(c, s, SequenceStep(msgs)))
  {
    var t := Next(c, s, SequenceStep(msgs));
    SequenceKeepsLeader(s.leader, s.base, s.hw0, msgs);
    NetStable(c, s, t);
    CommitStable(c, s, t);
  }

  lemma {:induction false} ProcessKeepsLeader(l: Leader, base: nat, hw0: int)
    requires LeaderOk(l, base, hw0) && l.batch != []
    ensures LeaderOk(ProcessPending(l), base, hw0)
  {
  }

  lemma {:induction false} ProcessKeepsInv(c: Config, s: System)
    requires Inv(c, s) && Enabled(c, s, ProcessStep)
    ensures Inv(c, Next(c, s, ProcessStep))
  {
    var t := Next(c, s, ProcessStep);
    ProcessKeepsLeader(s.leader, s.base, s.hw0);
    NetStable(c, s, t);
    CommitStable(c, s, t);
  }

  lemma {:induction false} ReportKeepsInv(c: Config, s: System)
    requires Inv(c, s) && Enabled(c, s, ReportStep)
    ensures Inv(c, Next(c, s, ReportStep))
  {
    var t := Next(c, s, ReportStep);
    OffsetStaysStored(c, s, t, c.self, NewestOffset(s.leader.log));
    TrackingKeepsInv(c, s, t);
  }

  lemma {:induction false} OffsetStaysStored(c: Config, s: System, t: System, r: string, offset: int)
    requires TrackedInv(c, s) && Stores(c, s, r, offset)
    requires t.leader.isr == UpdateOffset(s.leader, r, offset).isr
    requires t.leader.log == s.leader.log && t.leader.batch == s.leader.batch && t.followers == s.followers
    requires t.tracked0 == s.tracked0
    ensures TrackedInv(c, t) && t.leader.isr.Keys == s.leader.isr.Keys
  {
  }

  lemma {:induction false} RequestKeepsInv(c: Config, s: System, id: string)
    requires Inv(c, s) && Enabled(c, s, RequestStep(id)) && c.epoch != 0
    ensures Inv(c, Next(c, s, RequestStep(id)))
  {
  }

  lemma {:induction false} RespondIsGood(c: Config, s: System, req: Request, count: nat)
    requires LeaderInv(s) && req.from in s.followers && -1 <= req.offset < |s.followers[req.from].log|
    requires req.offset < NewestOffset(s.leader.log) ==> req.offset + 1 + count <= |s.leader.log|
    ensures GoodResponse(c, s, Respond(c, s.leader, req, count))
  {
    var resp := Respond(c, s.leader, req, count);
    assert resp.data != [] ==> resp.data[0] == s.leader.log[req.offset + 1];
  }

  lemma {:induction false} HandleKeepsInv(c: Config, s: System, req: Request, count: nat)
    requires Inv(c, s) && Enabled(c, s, HandleStep(req, count))
    ensures Inv(c, Next(c, s, HandleStep(req, count)))
  {
    assert GoodRequest(c, s, req);
    if Accepts(c, req) {
      var t := s.(leader := UpdateOffset(s.leader, req.from, req.offset));
      OffsetStaysStored(c, s, t, req.from, req.offset);
      TrackingKeepsInv(c, s, t);
      RespondIsGood(c, s, req, count);
      RespondKeepsInv(c, t, Respond(c, s.leader, req, count));
    }
  }

  lemma {:induction false} RespondKeepsInv(c: Config, s: System, resp: Response)
    requires Inv(c, s) && GoodResponse(c, s, resp)
    ensures Inv(c, s.(responses := s.responses + {resp}))
  {
    var t := s.(responses := s.responses + {resp});
    NetStable(c, s, t);
    CommitStable(c, s, t);
  }

  lemma {:induction false} DeliverKeepsInv(c: Config, s: System, resp: Response)
    requires Inv(c, s) && Enabled(c, s, DeliverStep(resp))
    ensures Inv(c, Next(c, s, DeliverStep(resp)))
  {
    var t := Next(c, s, DeliverStep(resp));
    var f, g := s.followers[resp.to], t.followers[resp.to];
    assert GoodResponse(c, s, resp);
    ReceivedIsPrefix(c, s, resp);
    NetStable(c, s, t);
    CommitStable(c, s, t);
  }

  /** The one-sided offset check accepts only a response that starts exactly at the next offset. */
  lemma {:induction false} ReceivedIsPrefix(c: Config, s: System, resp: Response)
    requires LeaderInv(s) && FollowersInv(c, s) && resp.to in s.followers && GoodResponse(c, s, resp)
    ensures var f := s.followers[resp.to]; var g := Receive(c, f, resp);
            && f.log <= g.log <= s.leader.log && f.hw <= g.hw <= Max(f.hw, s.leader.hw)
            && (g.log != f.log ==> resp.data[0].offset == |f.log|)
  {
  }

  lemma {:induction false} BeginKeepsInv(c: Config, s: System)
    requires Inv(c, s) && Enabled(c, s, BeginStep) && c.minISR > 0
    ensures Inv(c, Next(c, s, BeginStep))
  {
    var t := Next(c, s, BeginStep);
    NetStable(c, s, t);
    CommitStable(c, s, t);
  }

  lemma {:induction false} DecideKeepsInv(c: Config, s: System, read: map<string, int>, m: int)
    requires Inv(c, s) && Enabled(c, s, DecideStep(read, m))
    ensures Inv(c, Next(c, s, DecideStep(read, m)))
  {
    var t := Next(c, s, DecideStep(read, m));
    NetStable(c, s, t);
    DecidedIsSufficient(c, s, read, m);
    DecideKeepsCommits(c, s, t, m);
    DecideKeepsRest(c, s, t, m);
  }

  lemma {:induction false} DecideKeepsRest(c: Config, s: System, t: System, m: int)
    requires LeaderInv(s) && FollowersInv(c, s) && TrackedInv(c, s)
    requires t == s.(leader := Decide(s.leader, m), reading := None)
    ensures LeaderInv(t) && FollowersInv(c, t) && TrackedInv(c, t)
  {
  }

  lemma {:induction false} DecideKeepsCommits(c: Config, s: System, t: System, m: int)
    requires CommitInv(c, s) && Sufficient(c, s, s.leader.isr.Keys, m)
    requires t == s.(leader := Decide(s.leader, m), reading := None)
    ensures CommitInv(c, t)
  {
    assert Sufficient(c, t, t.leader.isr.Keys, m);
    forall a | a in t.leader.acks ensures Sufficient(c, t, a.members, a.offset) {
      assert Sufficient(c, s, a.members, a.offset);
    }
  }

  lemma {:induction false} DecidedIsSufficient(c: Config, s: System, read: map<string, int>, m: int)
    requires TrackedInv(c, s) && |s.leader.isr| >= c.minISR > 0
    requires read.Keys == s.leader.isr.Keys && (forall r <- read :: read[r] <= s.leader.isr[r]) && IsMin(read, m)
    ensures Sufficient(c, s, s.leader.isr.Keys, m)
  {
    assert |s.leader.isr| == |s.leader.isr.Keys| && |read| == |read.Keys|;
    forall r | r in s.leader.isr.Keys ensures Claimed(c, s, r, m) {
      assert r in read && m <= read[r] <= s.leader.isr[r];
      assert Claimed(c, s, r, s.leader.isr[r]);
    }
  }

  /** A commit serves the queue up to the decided offset, or to its end. */
  lemma {:induction false} Served(log: seq<Record>, queue: seq<Record>, taken: nat, q: nat, m: int) returns (n: nat)
    requires Contiguous(log) && IsSlice(queue, log, taken, q)
    ensures n == TakeUntil(queue, m) && taken + n == Max(taken, Min(q, m + 1)) <= q
    ensures queue[..n] == log[taken..taken + n] && IsSlice(queue[n..], log, taken + n, q)
  {
    n := TakeUntil(queue, m);
    assert n < |queue| ==> queue[n] == log[taken + n];
    assert n > 0 ==> queue[n - 1] == log[taken + n - 1];
  }

  lemma {:induction false} AcksStayDue(log: seq<Record>, base: nat, taken: nat, n: nat, acks: seq<Ack>,
        members: set<string>)
    requires base <= taken && taken + n <= |log| && Contiguous(log)
    requires Offsets(acks) == Due(log, base, taken, ALL)
    ensures Offsets(acks + AcksFor(log[taken..taken + n], members)) == Due(log, base, taken + n, ALL)
    ensures forall a :: a in AcksFor(log[taken..taken + n], members) ==>
            a.members == members && a.offset < taken + n && n > 0
  {
    var more := AcksFor(log[taken..taken + n], members);
    AcksAreDue(log, taken, taken + n, log[taken..taken + n], members);
    DueSplits(log, base, taken, taken + n, ALL);
    assert Offsets(acks + more) == Offsets(acks) + Offsets(more);
  }

  lemma {:induction false} CommitKeepsQueue(log: seq<Record>, queue: seq<Record>, base: nat, hw: int, taken: int,
      queued: int, m: int) returns (n: nat)
    requires Contiguous(log) && QueueInv(log, queue, base, hw, taken, queued)
    ensures n == TakeUntil(queue, m) && taken + n == Max(taken, Min(queued, m + 1)) <= queued
    ensures QueueInv(log, queue[n..], base, Max(hw, m), taken + n, queued)
    ensures queue[..n] == log[taken..taken + n] && (n > 0 ==> taken + n - 1 <= m)
  {
    n := Served(log, queue, taken, queued, m);
  }

  lemma {:induction false} CommitKeepsAcks(log: seq<Record>, early: seq<int>, acks: seq<Ack>, base: nat, taken: int,
      queued: int, n: nat, members: set<string>)
    requires Contiguous(log) && base <= taken && AckInv(log, early, acks, base, taken, queued) && taken + n <= queued
    ensures AckInv(log, early, acks + AcksFor(log[taken..taken + n], members), base, taken + n, queued)
  {
    AcksStayDue(log, base, taken, n, acks, members);
  }

  /** A commit takes off the queue and acknowledges exactly the messages up to the decided offset that are on it. */
  lemma {:induction false} CommitServes(log: seq<Record>, queue: seq<Record>, early: seq<int>, acks: seq<Ack>,
      base: nat, hw: int, taken: int, queued: int, d: Decision)
    requires Contiguous(log)
    requires QueueInv(log, queue, base, hw, taken, queued) && AckInv(log, early, acks, base, taken, queued)
    ensures var n := TakeUntil(queue, d.min);
            var more := AcksFor(queue[..n], d.members);
            && taken + n == Max(taken, Min(queued, d.min + 1))
            && QueueInv(log, queue[n..], base, Max(hw, d.min), taken + n, queued)
            && AckInv(log, early, acks + more, base, taken + n, queued)
            && forall a :: a in more ==> a.members == d.members && a.offset <= d.min
  {
    var n := CommitKeepsQueue(log, queue, base, hw, taken, queued, d.min);
    CommitKeepsAcks(log, early, acks, base, taken, queued, n, d.members);
    AcksStayDue(log, base, taken, n, acks, d.members);
  }

  lemma {:induction false} CompleteTakes(l: Leader)
    requires l.decision.Some?
    ensures Queued(Complete(l)) == Queued(l) &&
            Taken(Complete(l)) == Taken(l) + TakeUntil(l.queue, l.decision.value.min)
  {
  }

  lemma {:induction false} CompleteKeepsQueue(l: Leader, base: nat)
    requires Contiguous(l.log) && l.decision.Some? && QueueInv(l.log, l.queue, base, l.hw, Taken(l), Queued(l))
    ensures var t := Complete(l); QueueInv(t.log, t.queue, base, t.hw, Taken(t), Queued(t))
  {
    CompleteTakes(l);
    var n := CommitKeepsQueue(l.log, l.queue, base, l.hw, Taken(l), Queued(l), l.decision.value.min);
  }

  lemma {:induction false} CompleteKeepsAcks(l: Leader, base: nat)
    requires Contiguous(l.log) && l.decision.Some? && QueueInv(l.log, l.queue, base, l.hw, Taken(l), Queued(l))
    requires AckInv(l.log, l.early, l.acks, base, Taken(l), Queued(l))
    ensures var t := Complete(l); AckInv(t.log, t.early, t.acks, base, Taken(t), Queued(t))
  {
    CompleteTakes(l);
    CommitServes(l.log, l.queue, l.early, l.acks, base, l.hw, Taken(l), Queued(l), l.decision.value);
  }

  lemma {:induction false} CompleteKeepsLeader(l: Leader, base: nat, hw0: int)
    requires LeaderOk(l, base, hw0) && l.decision.Some?
    ensures LeaderOk(Complete(l), base, hw0)
  {
    CompleteKeepsQueue(l, base);
    CompleteKeepsAcks(l, base);
  }

  /** The queue is served up to the decided offset, or to its end. */
  lemma {:induction false} CompleteServes(l: Leader, base: nat, hw0: int)
    requires LeaderOk(l, base, hw0) && l.decision.Some?
    ensures Taken(Complete(l)) == Max(Taken(l), Min(Queued(l), l.decision.value.min + 1))
  {
    CompleteTakes(l);
    var n := CommitKeepsQueue(l.log, l.queue, base, l.hw, Taken(l), Queued(l), l.decision.value.min);
  }

  lemma {:induction false} CompleteAcks(l: Leader, base: nat, hw0: int)
    requires LeaderOk(l, base, hw0) && l.decision.Some?
    ensures forall a :: a in Complete(l).acks ==>
              a in l.acks || (a.members == l.decision.value.members && a.offset <= l.decision.value.min)
  {
    CommitServes(l.log, l.queue, l.early, l.acks, base, l.hw, Taken(l), Queued(l), l.decision.value);
  }

  lemma {:induction false} CompleteKeepsInv(c: Config, s: System)
    requires Inv(c, s) && Enabled(c, s, CompleteStep)
    ensures Inv(c, Next(c, s, CompleteStep))
  {
    var t := Next(c, s, CompleteStep);
    NetStable(c, s, t);
    CompleteKeepsLeader(s.leader, s.base, s.hw0);
    CompleteAcks(s.leader, s.base, s.hw0);
    CompleteKeepsCommits(c, s, t);
    assert FollowersInv(c, t);
  }

  lemma {:induction false} CompleteKeepsCommits(c: Config, s: System, t: System)
    requires CommitInv(c, s) && s.leader.decision.Some? && t == s.(leader := Complete(s.leader)) && s.hw0 <= s.leader.hw
    requires Queued(t.leader) == Queued(s.leader)
    requires forall a :: a in t.leader.acks ==>
               a in s.leader.acks ||
                   (a.members == s.leader.decision.value.members && a.offset <= s.leader.decision.value.min)
    ensures CommitInv(c, t)
  {
    var d := s.leader.decision.value;
    forall a | a in t.leader.acks ensures Sufficient(c, t, a.members, a.offset) {
      if a in s.leader.acks { assert Sufficient(c, s, a.members, a.offset); }
      forall r | r in a.members ensures Claimed(c, t, r, a.offset) {
        assert a in s.leader.acks ==> Claimed(c, s, r, a.offset);
        assert a !in s.leader.acks ==> Claimed(c, s, r, d.min);
      }
    }
    forall r | r in t.steady ensures t.leader.hw == t.hw0 || Claimed(c, t, r, t.leader.hw) {
      assert Claimed(c, s, r, d.min);
    }
  }

  lemma {:induction false} ShrinkKeepsInv(c: Config, s: System, id: string)
    requires Inv(c, s) && Enabled(c, s, ShrinkStep(id))
    ensures Inv(c, Next(c, s, ShrinkStep(id)))
  {
    var t := Next(c, s, ShrinkStep(id));
    assert TrackedInv(c, t);
    TrackingKeepsInv(c, s, t);
  }

  lemma {:induction false} ExpandKeepsInv(c: Config, s: System, id: string)
    requires Inv(c, s) && Enabled(c, s, ExpandStep(id))
    ensures Inv(c, Next(c, s, ExpandStep(id)))
  {
    var t := Next(c, s, ExpandStep(id));
    assert TrackedInv(c, t);
    TrackingKeepsInv(c, s, t);
  }

  lemma {:induction false} ForeignKeepsInv(c: Config, s: System, req: Request, resp: Response)
    requires Inv(c, s) && Enabled(c, s, ForeignStep(req, resp))
    ensures Inv(c, Next(c, s, ForeignStep(req, resp)))
  {
    var t := Next(c, s, ForeignStep(req, resp));
    NetStable(c, s, t);
    CommitStable(c, s, t);
  }

  lemma {:induction false} InitHasInv(c: Config, s: System)
    requires Init(c, s)
    ensures Inv(c, s)
  {
  }

  lemma {:induction false} StepKeepsInv(c: Config, s: System, step: Step, t: System)
    requires c.epoch != 0 && c.minISR > 0 && Inv(c, s) && IsStep(c, s, step, t)
    ensures Inv(c, t)
  {
    match step {
      case SequenceStep(msgs) => SequenceKeepsInv(c, s, msgs);
      case ProcessStep => ProcessKeepsInv(c, s);
      case ReportStep => ReportKeepsInv(c, s);
      case RequestStep(id) => RequestKeepsInv(c, s, id);
      case HandleStep(req, count) => HandleKeepsInv(c, s, req, count);
      case DeliverStep(resp) => DeliverKeepsInv(c, s, resp);
      case BeginStep => BeginKeepsInv(c, s);
      case DecideStep(read, m) => DecideKeepsInv(c, s, read, m);
      case CompleteStep => CompleteKeepsInv(c, s);
      case ShrinkStep(id) => ShrinkKeepsInv(c, s, id);
      case ExpandStep(id) => ExpandKeepsInv(c, s, id);
      case ForeignStep(req, resp) => ForeignKeepsInv(c, s, req, resp);
    }
  }

  lemma {:induction false} RunKeepsInv(c: Config, run: seq<System>, steps: seq<Step>, n: nat)
    requires IsRun(c, run, steps) && n < |run|
    ensures Inv(c, run[n])
  {
    if n == 0 {
      InitHasInv(c, run[0]);
    } else {
      RunKeepsInv(c, run, steps, n - 1);
      assert StepAt(c, run, steps, n - 1);
      StepKeepsInv(c, run[n - 1], steps[n - 1], run[n]);
    }
  }

  lemma {:induction false} StepGrows(c: Config, s: System, step: Step, t: System)
    requires Inv(c, s) && IsStep(c, s, step, t)
    ensures Grows(s, t) && s.leader.acks <= t.leader.acks
  {
    if step.DeliverStep? {
      assert GoodResponse(c, s, step.resp);
      ReceivedIsPrefix(c, s, step.resp);
    } else {
      OtherStepsGrow(c, s, step, t);
    }
  }

  lemma {:induction false} OtherStepsGrow(c: Config, s: System, step: Step, t: System)
    requires IsStep(c, s, step, t) && !step.DeliverStep?
    ensures Grows(s, t) && s.leader.acks <= t.leader.acks
  {
  }

  lemma {:induction false} RunStepGrows(c: Config, run: seq<System>, steps: seq<Step>, n: nat)
    requires IsRun(c, run, steps) && n < |steps|
    ensures Grows(run[n], run[n + 1]) && run[n].leader.acks <= run[n + 1].leader.acks
  {
    RunKeepsInv(c, run, steps, n);
    assert StepAt(c, run, steps, n);
    StepGrows(c, run[n], steps[n], run[n + 1]);
  }

  lemma {:induction false} GrowsTransitively(s: System, t: System, u: System)
    requires Grows(s, t) && Grows(t, u)
    ensures Grows(s, u)
  {
  }

  lemma {:induction false} RunGrows(c: Config, run: seq<System>, steps: seq<Step>, m: nat, n: nat)
    requires IsRun(c, run, steps) && m <= n < |run|
    ensures Grows(run[m], run[n]) && run[m].leader.acks <= run[n].leader.acks
    decreases n
  {
    if m == n {
    } else {
      RunGrows(c, run, steps, m, n - 1);
      RunStepGrows(c, run, steps, n - 1);
      GrowsTransitively(run[m], run[n - 1], run[n]);
    }
  }

  // ---------------------------------------------------------------- main results

  /** What an epoch begins with for a replica: the tracked offset, or -1 if it is not in the ISR. */
  function Began(s: System, r: string): int {
    if r in s.tracked0 then s.tracked0[r] else -1
  }

  /** In every run of one epoch, every follower's log is a prefix of the leader's, no tracked offset is above both what
      the replica stores and what it began with, and no response in flight starts above its follower's next offset. A
      follower's high watermark is at most the leader's or what the follower began with, so it is at most the leader's
      exactly when that is. */
  lemma {:induction false} OneEpochSafety(c: Config, run: seq<System>, steps: seq<Step>, n: nat)
    requires IsRun(c, run, steps) && n < |run|
    ensures var s := run[n];
            && s.followers.Keys == s.hws0.Keys
            && (forall r <- s.followers :: s.followers[r].log <= s.leader.log)
            && (forall r <- s.followers :: s.followers[r].hw <= Max(s.hws0[r], s.leader.hw))
            && (forall r <- s.followers :: s.followers[r].hw <= s.leader.hw <==> s.hws0[r] <= s.leader.hw)
            && (forall r <- s.leader.isr :: r != c.self ==>
                r in s.followers && s.leader.isr[r] <= Max(Began(s, r), NewestOffset(s.followers[r].log)))
            && (forall resp :: resp in s.responses && resp.epoch == c.epoch ==> resp.to in s.followers)
            && (forall resp :: resp in s.responses && resp.epoch == c.epoch && resp.data != [] ==>
                  resp.data[0].offset <= NewestOffset(s.followers[resp.to].log) + 1)
  {
    RunKeepsInv(c, run, steps, n);
    var s := run[n];
    forall r | r in s.leader.isr && r != c.self
      ensures r in s.followers && s.leader.isr[r] <= Max(Began(s, r), NewestOffset(s.followers[r].log))
    {
      assert Claimed(c, s, r, s.leader.isr[r]) && FollowerInv(s.followers[r], s.leader, s.hws0[r]);
    }
    forall resp | resp in s.responses && resp.epoch == c.epoch
      ensures resp.to in s.followers &&
              (resp.data != [] ==> resp.data[0].offset <= NewestOffset(s.followers[resp.to].log) + 1)
    {
      assert GoodResponse(c, s, resp);
    }
  }

  /** The epoch began with tracked offsets that the members stored, as the map of a new partition object is. */
  ghost predicate Truthful(c: Config, s: System) {
    forall r <- s.tracked0 :: Stores(c, s, r, s.tracked0[r])
  }

  /** Over every run: in each state every tracked offset is stored by its replica if and only if the epoch began so. */
  lemma {:induction false} TrackedIsStored(c: Config, run: seq<System>, steps: seq<Step>, n: nat)
    requires IsRun(c, run, steps) && n < |run|
    ensures (forall m :: 0 <= m <= n ==> TracksStored(c, run[m])) <==> Truthful(c, run[0])
  {
    if Truthful(c, run[0]) {
      forall m | 0 <= m <= n ensures TracksStored(c, run[m]) {
        RunKeepsInv(c, run, steps, m);
        RunGrows(c, run, steps, 0, m);
        TruthfulTracks(c, run[0], run[m]);
      }
    } else {
      assert !TracksStored(c, run[0]);
    }
  }

  ghost predicate TracksStored(c: Config, s: System) {
    forall r <- s.leader.isr :: Stores(c, s, r, s.leader.isr[r])
  }

  lemma {:induction false} TruthfulTracks(c: Config, s: System, t: System)
    requires Truthful(c, s) && Inv(c, t) && Grows(s, t) && t.tracked0 == s.tracked0
    ensures TracksStored(c, t)
  {
    forall r | r in t.leader.isr ensures Stores(c, t, r, t.leader.isr[r]) {
      assert Claimed(c, t, r, t.leader.isr[r]);
      assert r in s.tracked0 ==> Stores(c, s, r, s.tracked0[r]);
    }
  }

  /** In every state, the acknowledgements sent for policy ALL are exactly those of the messages sequenced in this epoch
      that the commit queue has been served up to and that ask for one, each once and in offset order, and none is above
      the high watermark; those for policy LEADER likewise for the messages put on the commit queue. */
  lemma {:induction false} AcksAreExact(c: Config, run: seq<System>, steps: seq<Step>, n: nat)
    requires IsRun(c, run, steps) && n < |run|
    ensures var s := run[n]; var all := Offsets(s.leader.acks);
            && s.base <= Taken(s.leader) <= Queued(s.leader) <= |s.leader.log|
            && Taken(s.leader) <= Max(s.base, s.leader.hw + 1) && -1 <= s.leader.hw
            && (forall o: int :: o in all <==> s.base <= o < Taken(s.leader) && Wants(s.leader.log[o], ALL))
            && (forall o <- all :: s.leader.log[o].message.policy == ALL && s.leader.log[o].message.ackInbox != "")
            && Increasing(all)
    ensures var s := run[n];
            && (forall o: int :: o in s.leader.early <==>
                s.base <= o < Queued(s.leader) && Wants(s.leader.log[o], LEADER))
            && Increasing(s.leader.early)
  {
    RunKeepsInv(c, run, steps, n);
    var s := run[n];
    DueExact(s.leader.log, s.base, Taken(s.leader), ALL);
    DueExact(s.leader.log, s.base, Queued(s.leader), LEADER);
  }

  /** The queue has been served up to the high watermark. */
  predicate ServedToHW(s: System) {
    Taken(s.leader) == Max(s.base, s.leader.hw + 1)
  }

  /** A commit keeps it so if and only if it decides on nothing that is not on the queue yet. */
  lemma {:induction false} ServingKeepsUp(s: System)
    requires LeaderInv(s) && s.leader.decision.Some? && ServedToHW(s)
    ensures ServedToHW(s.(leader := Complete(s.leader))) <==> s.leader.decision.value.min < Queued(s.leader)
  {
    CompleteServes(s.leader, s.base, s.hw0);
  }

  /** The leader was in its own ISR at each decision. */
  ghost predicate LeaderInSync(c: Config, run: seq<System>, steps: seq<Step>, n: nat)
    requires |run| == |steps| + 1 && n <= |steps|
  {
    forall i :: 0 <= i < n && steps[i].DecideStep? ==> c.self in run[i].leader.isr
  }

  /** The leader began with a high watermark and an own tracked offset within its log. */
  predicate BeganWithinLog(c: Config, s: System) {
    s.hw0 < s.base && Began(s, c.self) < s.base
  }

  /** Then the queue has always been served up to the high watermark: acknowledged are exactly the messages of this
      epoch at or below it that ask for it. */
  lemma {:induction false} AcksReachHW(c: Config, run: seq<System>, steps: seq<Step>, n: nat)
    requires IsRun(c, run, steps) && n < |run| && LeaderInSync(c, run, steps, n) && BeganWithinLog(c, run[0])
    ensures var s := run[n];
            && ServedToHW(s) && -1 <= s.leader.hw < |s.leader.log|
            && forall o: int :: o in Offsets(s.leader.acks) <==>
                s.base <= o <= s.leader.hw && Wants(s.leader.log[o], ALL)
  {
    ServedWhileInSync(c, run, steps, n);
    AcksAreExact(c, run, steps, n);
  }

  lemma {:induction false} ServedWhileInSync(c: Config, run: seq<System>, steps: seq<Step>, n: nat)
    requires IsRun(c, run, steps) && n < |run| && LeaderInSync(c, run, steps, n) && BeganWithinLog(c, run[0])
    ensures ServedToHW(run[n]) && run[n].leader.hw < |run[n].leader.log| && BeganWithinLog(c, run[n])
    ensures run[n].leader.decision.Some? ==> c.self in run[n].leader.decision.value.members
  {
    if n == 0 {
    } else {
      ServedWhileInSync(c, run, steps, n - 1);
      RunKeepsInv(c, run, steps, n - 1);
      assert StepAt(c, run, steps, n - 1);
      StepStaysServed(c, run[n - 1], steps[n - 1], run[n]);
    }
  }

  lemma {:induction false} StepStaysServed(c: Config, s: System, step: Step, t: System)
    requires LeaderInv(s) && CommitInv(c, s) && IsStep(c, s, step, t) && ServedToHW(s) && BeganWithinLog(c, s)
    requires s.leader.hw < |s.leader.log|
    requires step.DecideStep? ==> c.self in s.leader.isr
    requires s.leader.decision.Some? ==> c.self in s.leader.decision.value.members
    ensures ServedToHW(t) && t.leader.hw < |t.leader.log| && BeganWithinLog(c, t)
    ensures t.leader.decision.Some? ==> c.self in t.leader.decision.value.members
  {
    if step.CompleteStep? {
      assert Claimed(c, s, c.self, s.leader.decision.value.min);
      ServingKeepsUp(s);
    } else {
      OtherStepsStayServed(c, s, step, t);
    }
  }

  lemma {:induction false} OtherStepsStayServed(c: Config, s: System, step: Step, t: System)
    requires IsStep(c, s, step, t) && !step.CompleteStep? && ServedToHW(s)
    ensures ServedToHW(t) && t.leader.hw == s.leader.hw && |s.leader.log| <= |t.leader.log|
    ensures t.base == s.base && t.hw0 == s.hw0 && t.tracked0 == s.tracked0
    ensures t.leader.decision ==
            if step.DecideStep? then Some(Decision(step.min, s.leader.isr.Keys)) else s.leader.decision
  {
  }

  /** Every message up to the decided offset is on the queue when the commit completes. */
  predicate QueuedFirst(run: seq<System>, steps: seq<Step>, i: nat)
    requires i < |steps| && |run| == |steps| + 1
  {
    steps[i].CompleteStep? ==>
      run[i].leader.decision.Some? && run[i].leader.decision.value.min < Queued(run[i].leader)
  }

  /** Over every run: in each state the queue has been served up to the high watermark if and only if the leader began
      with a high watermark within its log and each commit found all it decided on on the queue. */
  lemma {:induction false} AcksKeepUp(c: Config, run: seq<System>, steps: seq<Step>, n: nat)
    requires IsRun(c, run, steps) && n < |run|
    ensures (forall m :: 0 <= m <= n ==> ServedToHW(run[m])) <==>
            run[0].hw0 < run[0].base && (forall i :: 0 <= i < n ==> QueuedFirst(run, steps, i))
  {
    if n == 0 {
      assert ServedToHW(run[0]) <==> run[0].hw0 < run[0].base;
    } else {
      AcksKeepUp(c, run, steps, n - 1);
      if ServedToHW(run[n - 1]) {
        assert StepAt(c, run, steps, n - 1);
        RunKeepsInv(c, run, steps, n - 1);
        ServedNext(c, run[n - 1], steps[n - 1], run[n]);
        assert ServedToHW(run[n]) <==> QueuedFirst(run, steps, n - 1);
      }
    }
  }

  lemma {:induction false} ServedNext(c: Config, s: System, step: Step, t: System)
    requires Inv(c, s) && IsStep(c, s, step, t) && ServedToHW(s)
    ensures ServedToHW(t) <==>
            (step.CompleteStep? ==> s.leader.decision.Some? && s.leader.decision.value.min < Queued(s.leader))
  {
    if step.CompleteStep? {
      ServingKeepsUp(s);
    } else {
      OtherStepsStayServed(c, s, step, t);
    }
  }

  /** A completed commit decision moves the high watermark to its minimum, and by then every message up to there that is
      on the queue and asks for it is acknowledged. */
  lemma {:induction false} CommitTakesEffect(c: Config, run: seq<System>, steps: seq<Step>, n: nat, o: int)
    requires IsRun(c, run, steps) && n < |steps| && steps[n].CompleteStep? && run[n].leader.decision.Some?
    requires run[n].base <= o <= run[n].leader.decision.value.min && o < Queued(run[n].leader)
    requires 0 <= o < |run[n].leader.log| && Wants(run[n].leader.log[o], ALL)
    ensures run[n + 1].leader.hw >= run[n].leader.decision.value.min && o in Offsets(run[n + 1].leader.acks)
  {
    var s := run[n];
    assert StepAt(c, run, steps, n);
    RunKeepsInv(c, run, steps, n);
    CompleteServes(s.leader, s.base, s.hw0);
    AcksAreExact(c, run, steps, n + 1);
  }

  /** So when the commit loop begins to read the offsets after every member of the ISR has reported a message, the
      decision it comes to commits the message, and acknowledges it if it is on the queue by then. */
  lemma {:induction false} ReportedIsCommitted(c: Config, run: seq<System>, steps: seq<Step>, b: nat, d: nat, e: nat,
        o: int)
    requires IsRun(c, run, steps) && b < d < e < |steps|
    requires steps[b].BeginStep? && steps[d].DecideStep? && steps[e].CompleteStep?
    requires forall i :: b < i < d ==> !steps[i].DecideStep?
    requires forall i :: d < i < e ==> !steps[i].CompleteStep?
    requires forall r <- run[b].leader.isr :: o <= run[b].leader.isr[r]
    requires run[e].base <= o < Queued(run[e].leader) <= |run[e].leader.log| && Wants(run[e].leader.log[o], ALL)
    ensures run[e + 1].leader.hw >= o && o in Offsets(run[e + 1].leader.acks)
  {
    ReadingStays(c, run, steps, b, d);
    DecisionStays(c, run, steps, d, e);
    DecidedAtLeast(c, run, steps, b, d, o);
    CommitTakesEffect(c, run, steps, e, o);
  }

  lemma {:induction false} ReadingStays(c: Config, run: seq<System>, steps: seq<Step>, b: nat, d: nat)
    requires IsRun(c, run, steps) && b < d < |steps| && steps[b].BeginStep?
    requires forall i :: b < i < d ==> !steps[i].DecideStep?
    ensures run[d].reading == Some(run[b].leader.isr) && |run[b].leader.isr| >= c.minISR
  {
    assert StepAt(c, run, steps, d - 1);
    if b < d - 1 {
      ReadingStays(c, run, steps, b, d - 1);
    }
  }

  lemma {:induction false} DecisionStays(c: Config, run: seq<System>, steps: seq<Step>, d: nat, e: nat)
    requires IsRun(c, run, steps) && d < e < |steps| && steps[d].DecideStep?
    requires forall i :: d < i < e ==> !steps[i].CompleteStep?
    ensures run[e].leader.decision == Some(Decision(steps[d].min, run[d].leader.isr.Keys)) && run[e].reading.None?
  {
    assert StepAt(c, run, steps, e - 1);
    if d < e - 1 {
      DecisionStays(c, run, steps, d, e - 1);
      StepKeepsDecision(c, run[e - 1], steps[e - 1], run[e]);
    }
  }

  lemma {:induction false} StepKeepsDecision(c: Config, s: System, step: Step, t: System)
    requires IsStep(c, s, step, t) && s.leader.decision.Some? && s.reading.None? && !step.CompleteStep?
    ensures t.leader.decision == s.leader.decision && t.reading.None?
  {
  }

  lemma {:induction false} DecidedAtLeast(c: Config, run: seq<System>, steps: seq<Step>, b: nat, d: nat, o: int)
    requires IsRun(c, run, steps) && d < |steps| && steps[d].DecideStep? && b < |run|
    requires run[d].reading == Some(run[b].leader.isr) && |run[b].leader.isr| >= c.minISR
    requires forall r <- run[b].leader.isr :: o <= run[b].leader.isr[r]
    ensures steps[d].min >= o
  {
    assert StepAt(c, run, steps, d) && c.minISR > 0;
    var read := steps[d].read;
    assert read.Keys == run[b].leader.isr.Keys && |read| == |read.Keys| &&
        |run[b].leader.isr| == |run[b].leader.isr.Keys|;
  }

  /** An acknowledgement for policy ALL is sent only after at least the minimum number of replicas, every member of the
      ISR used for the decision, store the message, but for those the epoch began with a tracked offset at or past it;
      they and the leader keep it for the rest of the epoch. */
  lemma {:induction false} AckedStayStored(c: Config, run: seq<System>, steps: seq<Step>, m: nat, n: nat, a: Ack)
    requires IsRun(c, run, steps) && m <= n < |run| && a in run[m].leader.acks
    ensures a in run[n].leader.acks && 0 < c.minISR <= |a.members|
    ensures 0 <= a.offset < |run[m].leader.log|
    ensures a.offset < |run[n].leader.log| && run[n].leader.log[a.offset] == run[m].leader.log[a.offset]
    ensures forall r <- a.members :: r != c.self && Began(run[0], r) < a.offset ==>
              && r in run[n].followers && a.offset < |run[n].followers[r].log|
              && run[n].followers[r].log[a.offset] == run[m].leader.log[a.offset]
  {
    AckIsOfLog(c, run, steps, m, a);
    RunGrows(c, run, steps, m, n);
    RunGrows(c, run, steps, 0, n);
    var i :| 0 <= i < |run[m].leader.acks| && run[m].leader.acks[i] == a;
    assert run[n].leader.acks[i] == a;
    AckIsStored(c, run, steps, n, a);
  }

  /** So in an epoch that began truthfully every member stores it. */
  lemma {:induction false} TruthfulAcksAreStored(c: Config, run: seq<System>, steps: seq<Step>, m: nat, n: nat, a: Ack)
    requires IsRun(c, run, steps) && m <= n < |run| && a in run[m].leader.acks && Truthful(c, run[0])
    ensures 0 <= a.offset < |run[m].leader.log|
    ensures forall r <- a.members :: r != c.self ==>
              && r in run[n].followers && a.offset < |run[n].followers[r].log|
              && run[n].followers[r].log[a.offset] == run[m].leader.log[a.offset]
  {
    AckedStayStored(c, run, steps, m, n, a);
    AckIsOfLog(c, run, steps, m, a);
    RunGrows(c, run, steps, 0, m);
    forall r | r in a.members && r != c.self ensures Began(run[0], r) < a.offset {
      assert r in run[0].tracked0 ==> Stores(c, run[0], r, run[0].tracked0[r]);
    }
  }

  lemma {:induction false} AckIsOfLog(c: Config, run: seq<System>, steps: seq<Step>, n: nat, a: Ack)
    requires IsRun(c, run, steps) && n < |run| && a in run[n].leader.acks
    ensures run[n].base <= a.offset < |run[n].leader.log|
  {
    AcksAreExact(c, run, steps, n);
    var i :| 0 <= i < |run[n].leader.acks| && run[n].leader.acks[i] == a;
    assert Offsets(run[n].leader.acks)[i] == a.offset;
    assert a.offset in Offsets(run[n].leader.acks);
  }

  lemma {:induction false} AckIsStored(c: Config, run: seq<System>, steps: seq<Step>, n: nat, a: Ack)
    requires IsRun(c, run, steps) && n < |run| && a in run[n].leader.acks
    ensures 0 < c.minISR <= |a.members| && 0 <= a.offset < |run[n].leader.log|
    ensures forall r <- a.members :: r != c.self && Began(run[n], r) < a.offset ==>
              && r in run[n].followers && a.offset < |run[n].followers[r].log|
              && run[n].followers[r].log[a.offset] == run[n].leader.log[a.offset]
  {
    AckIsOfLog(c, run, steps, n, a);
    RunKeepsInv(c, run, steps, n);
    var s := run[n];
    assert Sufficient(c, s, a.members, a.offset);
    forall r | r in a.members && r != c.self && Began(s, r) < a.offset
      ensures r in s.followers && a.offset < |s.followers[r].log|
      ensures s.followers[r].log[a.offset] == s.leader.log[a.offset]
    {
      assert Claimed(c, s, r, a.offset) && FollowerInv(s.followers[r], s.leader, s.hws0[r]);
    }
  }

  /** A replica that has been in the ISR since the epoch began stores every message committed in it, if the high
      watermark has moved past the offset it began with. */
  lemma {:induction false} SteadyMembersHoldCommitted(c: Config, run: seq<System>, steps: seq<Step>, n: nat, r: string)
    requires IsRun(c, run, steps) && n < |run| && r in run[n].steady && r != c.self
    ensures var s := run[n];
            || s.leader.hw == s.hw0 || s.leader.hw <= Began(s, r)
            || (r in s.followers && s.leader.hw < |s.followers[r].log|)
  {
    RunKeepsInv(c, run, steps, n);
    assert run[n].leader.hw == run[n].hw0 || Claimed(c, run[n], r, run[n].leader.hw);
  }
}

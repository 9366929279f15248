/** A partition over many leader epochs: elections, truncation, replication, ISR changes and commits, as the code takes
    these steps, with nothing to stop a wrong one.

    Replicas are numbered. The epochs are lines: line `n` is the n-th leader epoch and carries the longest log its
    leader had in it. Line 0 stands for the time before the first election. */
module HandOver {
  import opened Integers
  import opened EpochCache
  import EpochFence

  datatype Msg = Msg(epoch: nat, payload: string)

  /** One server's partition object. `led` is the offset map it was left with when it last stopped leading. */
  datatype Replica = Replica(log: seq<Msg>, cache: Cache, line: nat, hw: int, led: map<nat, int>)

  /** An entry of the Raft log that changes the ISR. */
  datatype Change = Remove(id: nat) | Add(id: nat)

  datatype Line = Line(
    epoch: nat,
    leader: nat,
    start: nat,            // the length of the leader's log when the epoch began
    log: seq<Msg>,
    isr: map<nat, int>,    // the leader's ISR with the offsets it tracks
    pending: seq<Change>,  // changes of the ISR that the leader has not applied yet
    sent: map<nat, int>,   // the newest offset each follower has reported, on its way to the leader
    committed: nat,        // the number of messages the leader has decided to commit
    hw: int)               // the leader's high watermark

  datatype Cluster = Cluster(minISR: nat, lines: seq<Line>, replicas: seq<Replica>)

  function Epochs(log: seq<Msg>): (es: seq<nat>)
    ensures |es| == |log|
    ensures forall i :: 0 <= i < |log| ==> es[i] == log[i].epoch
  {
    seq(|log|, i requires 0 <= i < |log| => log[i].epoch)
  }

  function View(r: Replica): EpochFence.EpochLog {
    EpochFence.EpochLog(0, Epochs(r.log), r.cache)
  }

  // ---------------------------------------------------------------- steps of one replica

  function AppendMsg(r: Replica, m: Msg): Replica {
    r.(log := r.log + [m], cache := EpochFence.CacheAfterAppend(r.cache, m.epoch, |r.log|))
  }

  /** The answer to a replica whose latest epoch is `epoch`. */
  function Answer(leader: Replica, epoch: nat): int {
    EpochFence.LastOffsetForLeaderEpoch(View(leader), epoch)
  }

  function KeptLength(r: Replica, leader: Replica): nat {
    var l := Answer(leader, LatestEpoch(r.cache));
    if l < 0 then 0 else if l + 1 < |r.log| then l + 1 else |r.log|
  }

  /** `truncateUncommitted`: keep everything up to and including the offset the leader names. */
  function Truncated(r: Replica, leader: Replica): Replica {
    var l := Answer(leader, LatestEpoch(r.cache));
    if l + 1 > |r.log| - 1 then r
    else r.(log := r.log[..KeptLength(r, leader)], cache := ClearedLatest(r.cache, l + 1))
  }

  /** `truncateToHW`, for when no leader answers. */
  function CutToHW(r: Replica): Replica {
    if r.hw + 1 > |r.log| - 1 || r.hw + 1 < 0 then r
    else r.(log := r.log[..r.hw + 1], cache := ClearedLatest(r.cache, r.hw + 1))
  }

  /** What a replica could check before truncating: the leader's message at the last offset it would keep
      is of an epoch it knows. */
  predicate Agreeable(r: Replica, leader: Replica) {
    var k := KeptLength(r, leader);
    k == 0 || (k <= |leader.log| && leader.log[k - 1].epoch <= LatestEpoch(r.cache))
  }

  // ---------------------------------------------------------------- the in-sync replicas

  function Applied(isr: map<nat, int>, change: Change): map<nat, int> {
    match change
    case Remove(id) => isr - {id}
    case Add(id) => isr[id := -1]
  }

  function AppliedAll(isr: map<nat, int>, changes: seq<Change>): map<nat, int>
    decreases |changes|
  {
    if changes == [] then isr else AppliedAll(Applied(isr, changes[0]), changes[1..])
  }

  /** The ISR according to the Raft log, which the leader may be behind. */
  function Members(l: Line): set<nat> {
    AppliedAll(l.isr, l.pending).Keys
  }

  // ---------------------------------------------------------------- steps of the cluster

  datatype Step =
    | Elect(id: nat, epoch: nat, kept: map<nat, int>)
    | Follow(id: nat, line: nat, from: nat)
    | FollowHW(id: nat, line: nat)
    | Write(id: nat, payload: string)
    | Fetch(id: nat)
    | Learn(id: nat, hw: int)
    | Request(id: nat)
    | Track(line: nat, id: nat, offset: int)
    | Report(line: nat)
    | Propose(change: Change)
    | Apply(line: nat)
    | Decide(line: nat, length: nat)
    | Advance(line: nat)

  predicate Leads(s: Cluster, id: nat, line: nat) {
    0 < line < |s.lines| && s.lines[line].leader == id < |s.replicas| && s.replicas[id].line == line
  }

  predicate IsLed(s: Cluster, line: nat) {
    0 < line < |s.lines| && Leads(s, s.lines[line].leader, line)
  }

  predicate Follows(s: Cluster, id: nat) {
    id < |s.replicas| && 0 < s.replicas[id].line < |s.lines| && s.lines[s.replicas[id].line].leader != id
  }

  /** A new leader goes on with the offset map its partition object has. */
  predicate Carried(r: Replica, m: nat, offset: int) {
    offset == -1 || (m in r.led && offset == r.led[m])
  }

  predicate Enabled(s: Cluster, step: Step) {
    match step
    case Elect(id, epoch, kept) =>
      // Raft entries are applied in order, so the new leader has followed or led the line before.
      && |s.lines| > 0 && id < |s.replicas| && s.replicas[id].line == |s.lines| - 1
      && s.lines[|s.lines| - 1].epoch < epoch && epoch + 1 < U64
      && kept.Keys == Members(s.lines[|s.lines| - 1])
      && forall m <- kept :: Carried(s.replicas[id], m, kept[m])
    case Follow(id, line, from) =>
      // Whoever takes itself for a leader may answer.
      && id < |s.replicas| && s.replicas[id].line <= line < |s.lines| && 0 < line && s.lines[line].leader != id
      && from != id && from < |s.replicas| && Leads(s, from, s.replicas[from].line)
    case FollowHW(id, line) =>
      && id < |s.replicas| && s.replicas[id].line < line < |s.lines| && s.lines[line].leader != id
    case Write(id, _) =>
      id < |s.replicas| && Leads(s, id, s.replicas[id].line)
    case Fetch(id) =>
      Follows(s, id) && |s.replicas[id].log| < |s.lines[s.replicas[id].line].log|
    case Learn(id, hw) =>
      Follows(s, id) && s.replicas[id].hw < hw <= s.lines[s.replicas[id].line].hw
    case Request(id) =>
      Follows(s, id)
    case Track(line, id, offset) =>
      && IsLed(s, line) && id != s.lines[line].leader
      && id in s.lines[line].isr && id in s.lines[line].sent && -1 <= offset <= s.lines[line].sent[id]
    case Report(line) =>
      IsLed(s, line) && s.lines[line].leader in s.lines[line].isr
    case Propose(change) =>
      |s.lines| > 1 && change.id < |s.replicas|
    case Apply(line) =>
      IsLed(s, line) && s.lines[line].pending != []
    case Decide(line, length) =>
      && IsLed(s, line) && s.lines[line].isr != map[] && |s.lines[line].isr| >= s.minISR
      && s.lines[line].committed <= length
      && forall m <- s.lines[line].isr :: length <= s.lines[line].isr[m] + 1
    case Advance(line) =>
      IsLed(s, line)
  }

  /** The offset map a server is left with when it stops leading. */
  function Left(s: Cluster, id: nat): map<nat, int>
    requires id < |s.replicas|
  {
    if Leads(s, id, s.replicas[id].line) then s.lines[s.replicas[id].line].isr else s.replicas[id].led
  }

  function Elected(s: Cluster, id: nat, epoch: nat, kept: map<nat, int>): Cluster
    requires id < |s.replicas|
  {
    var r := s.replicas[id];
    var line := Line(epoch, id, |r.log|, r.log, kept, [], map[], 0, r.hw);
    var leader := Replica(r.log, Assigned(r.cache, epoch, |r.log| - 1), |s.lines|, r.hw, Left(s, id));
    s.(lines := s.lines + [line], replicas := s.replicas[id := leader])
  }

  function WithLine(s: Cluster, line: nat, l: Line): Cluster
    requires line < |s.lines|
  {
    s.(lines := s.lines[line := l])
  }

  function WithReplica(s: Cluster, id: nat, r: Replica): Cluster
    requires id < |s.replicas|
  {
    s.(replicas := s.replicas[id := r])
  }

  function Next(s: Cluster, step: Step): Cluster
    requires Enabled(s, step)
  {
    match step
    case Elect(id, epoch, kept) => Elected(s, id, epoch, kept)
    case Follow(id, line, from) =>
      WithReplica(s, id, Truncated(s.replicas[id], s.replicas[from]).(line := line, led := Left(s, id)))
    case FollowHW(id, line) =>
      WithReplica(s, id, CutToHW(s.replicas[id]).(line := line, led := Left(s, id)))
    case Write(id, payload) =>
      var line := s.replicas[id].line;
      var r := AppendMsg(s.replicas[id], Msg(s.lines[line].epoch, payload));
      WithReplica(WithLine(s, line, s.lines[line].(log := r.log)), id, r)
    case Fetch(id) =>
      var r := s.replicas[id];
      WithReplica(s, id, AppendMsg(r, s.lines[r.line].log[|r.log|]))
    case Learn(id, hw) => WithReplica(s, id, s.replicas[id].(hw := hw))
    case Request(id) =>
      var line := s.replicas[id].line;
      var l := s.lines[line];
      var offset := |s.replicas[id].log| - 1;
      WithLine(s, line, l.(sent := l.sent[id := if id in l.sent then Max(l.sent[id], offset) else offset]))
    case Track(line, id, offset) =>
      var l := s.lines[line];
      WithLine(s, line, l.(isr := l.isr[id := Max(l.isr[id], offset)]))
    case Report(line) =>
      var l := s.lines[line];
      WithLine(s, line, l.(isr := l.isr[l.leader := Max(l.isr[l.leader], |l.log| - 1)]))
    case Propose(change) =>
      var n := |s.lines| - 1;
      WithLine(s, n, s.lines[n].(pending := s.lines[n].pending + [change]))
    case Apply(line) =>
      var l := s.lines[line];
      WithLine(s, line, l.(isr := Applied(l.isr, l.pending[0]), pending := l.pending[1..]))
    case Decide(line, length) => WithLine(s, line, s.lines[line].(committed := length))
    case Advance(line) =>
      var l := s.lines[line];
      var hw := Max(l.hw, l.committed - 1);
      WithReplica(WithLine(s, line, l.(hw := hw)), l.leader, s.replicas[l.leader].(hw := hw))
  }

  const NOBODY := Line(0, 0, 0, [], map[], [], map[], 0, -1)

  /** The offset map of a new partition object with an empty log. */
  function FreshMap(n: nat): (m: map<nat, int>)
    ensures forall id: nat :: id in m <==> id < n
    ensures forall id <- m :: m[id] == -1
  {
    if n == 0 then map[] else FreshMap(n - 1)[n - 1 := -1]
  }

  /** A new partition: every replica is in the ISR, and every log is empty. */
  ghost predicate Init(s: Cluster) {
    && s.minISR > 0
    && s.lines == [NOBODY.(isr := FreshMap(|s.replicas|))]
    && forall i :: 0 <= i < |s.replicas| ==> s.replicas[i] == Replica([], [], 0, -1, map[])
  }

  predicate IsStep(s: Cluster, step: Step, t: Cluster) {
    Enabled(s, step) && t == Next(s, step)
  }

  ghost predicate IsRun(run: seq<Cluster>, steps: seq<Step>) {
    && |run| == |steps| + 1
    && Init(run[0])
    && forall i :: 0 <= i < |steps| ==> StepAt(run, steps, i)
  }

  ghost predicate StepAt(run: seq<Cluster>, steps: seq<Step>, i: nat)
    requires i < |steps| && |run| == |steps| + 1
  {
    IsStep(run[i], steps[i], run[i + 1])
  }

  // ---------------------------------------------------------------- truncations that go right

  /** The truncation is answered by the new leader and passes the check; one to the high watermark keeps only what
      the new leader has. */
  predicate Sound(s: Cluster, step: Step) {
    match step
    case Follow(id, line, from) =>
      id < |s.replicas| && Leads(s, from, line) && Agreeable(s.replicas[id], s.replicas[from])
    case FollowHW(id, line) =>
      id < |s.replicas| && line < |s.lines| && CutToHW(s.replicas[id]).log <= s.lines[line].log
    case _ => true
  }

  /** The first `n` steps truncate soundly. */
  ghost predicate SoundUntil(run: seq<Cluster>, steps: seq<Step>, n: nat)
    requires |run| == |steps| + 1 && n <= |steps|
  {
    forall i :: 0 <= i < n ==> Sound(run[i], steps[i])
  }

  /** Some run whose truncations are all sound ends in this state. */
  ghost predicate Reachable(s: Cluster) {
    exists run, steps :: IsRun(run, steps) && SoundUntil(run, steps, |steps|) && run[|steps|] == s
  }

  lemma {:induction false} StartIsReachable(s: Cluster)
    requires Init(s)
    ensures Reachable(s)
  {
    assert IsRun([s], []) && SoundUntil([s], [], 0);
  }

  predicate SoundStep(s: Cluster, step: Step, t: Cluster) {
    IsStep(s, step, t) && Sound(s, step)
  }

  lemma {:induction false} StepIsReachable(s: Cluster, step: Step, t: Cluster)
    requires Reachable(s) && SoundStep(s, step, t)
    ensures Reachable(t)
  {
    var run, steps :| IsRun(run, steps) && SoundUntil(run, steps, |steps|) && run[|steps|] == s;
    ExtendRun(run, steps, step, t);
    assert (run + [t])[|steps| + 1] == t;
  }

  lemma {:induction false} ElectionIsReachable(s: Cluster, id: nat, epoch: nat, kept: map<nat, int>, t: Cluster)
    requires Reachable(s) && s.lines != [] && id < |s.replicas| && s.replicas[id].line == |s.lines| - 1
    requires var l := s.lines[|s.lines| - 1]; l.epoch < epoch && kept.Keys == Members(l)
    requires epoch + 1 < U64 && (forall m <- kept :: Carried(s.replicas[id], m, kept[m]))
    requires t == Elected(s, id, epoch, kept)
    ensures Reachable(t)
  {
    StepIsReachable(s, Elect(id, epoch, kept), t);
  }

  lemma {:induction false} FollowIsReachable(s: Cluster, id: nat, line: nat, from: nat, r: Replica, t: Cluster)
    requires Reachable(s) && Enabled(s, Follow(id, line, from)) && Leads(s, from, line)
    requires Agreeable(s.replicas[id], s.replicas[from])
    requires r == Truncated(s.replicas[id], s.replicas[from]).(line := line, led := Left(s, id))
    requires t == WithReplica(s, id, r)
    ensures Reachable(t)
  {
    StepIsReachable(s, Follow(id, line, from), t);
  }

  /** A change of the ISR is proposed, */
  lemma {:induction false} ProposalIsReachable(s: Cluster, change: Change, t: Cluster)
    requires Reachable(s) && Enabled(s, Propose(change)) && s.lines[|s.lines| - 1].pending == []
    requires t == WithLine(s, |s.lines| - 1, s.lines[|s.lines| - 1].(pending := [change]))
    ensures Reachable(t)
  {
    assert [] + [change] == [change];
    StepIsReachable(s, Propose(change), t);
  }

  /** and applied by the leader. */
  lemma {:induction false} ChangeIsReachable(s: Cluster, change: Change, t: Cluster)
    requires Reachable(s) && Enabled(s, Propose(change)) && IsLed(s, |s.lines| - 1) &&
             s.lines[|s.lines| - 1].pending == []
    requires var l := s.lines[|s.lines| - 1]; t == WithLine(s, |s.lines| - 1, l.(isr := Applied(l.isr, change)))
    ensures Reachable(t)
  {
    var n := |s.lines| - 1;
    var u := WithLine(s, n, s.lines[n].(pending := [change]));
    ProposalIsReachable(s, change, u);
    assert [change][1..] == [];
    StepIsReachable(u, Apply(n), t);
  }

  lemma {:induction false} ExtendRun(run: seq<Cluster>, steps: seq<Step>, step: Step, t: Cluster)
    requires IsRun(run, steps) && SoundUntil(run, steps, |steps|) && SoundStep(run[|steps|], step, t)
    ensures IsRun(run + [t], steps + [step]) && SoundUntil(run + [t], steps + [step], |steps + [step]|)
  {
    var run', steps' := run + [t], steps + [step];
    forall i | 0 <= i < |steps'| ensures StepAt(run', steps', i) && Sound(run'[i], steps'[i]) {
      if i < |steps| { assert StepAt(run, steps, i) && Sound(run[i], steps[i]); }
    }
  }

  // ---------------------------------------------------------------- what the logs have in common

  ghost predicate NonDecreasing(log: seq<Msg>) {
    forall i, j :: 0 <= i <= j < |log| ==> log[i].epoch <= log[j].epoch
  }

  ghost predicate Wellformed(l: Line) {
    NonDecreasing(l.log) && (forall i :: 0 <= i < |l.log| ==> l.log[i].epoch <= l.epoch) && l.epoch + 1 < U64
  }

  /** A line starts as a prefix of the one before it and adds messages of its own epoch. */
  ghost predicate Extends(a: Line, b: Line) {
    && a.epoch < b.epoch
    && b.start <= |a.log| && b.start <= |b.log|
    && a.log[..b.start] == b.log[..b.start]
    && forall i :: b.start <= i < |b.log| ==> b.log[i].epoch == b.epoch
  }

  ghost predicate LineInv(lines: seq<Line>, n: nat)
    requires n < |lines|
  {
    && Wellformed(lines[n])
    && (n == 0 ==> lines[n].log == [] && lines[n].start == 0)
    && (n > 0 ==> Extends(lines[n - 1], lines[n]))
  }

  ghost predicate LinesInv(lines: seq<Line>) {
    |lines| > 0 && forall n :: 0 <= n < |lines| ==> LineInv(lines, n)
  }

  /** No epoch starts past the newest offset. */
  ghost predicate Within(c: Cache, length: nat) {
    forall k :: 0 <= k < |c| ==> c[k].startOffset < length
  }

  ghost predicate ReplicaInv(r: Replica, id: nat, l: Line) {
    && r.log <= l.log
    && EpochFence.Inv(View(r)) && Within(r.cache, |r.log|)
    && LatestEpoch(r.cache) <= l.epoch
    && (forall i :: |r.log| <= i < |l.log| ==> LatestEpoch(r.cache) <= l.log[i].epoch)
    && (r.line > 0 && l.leader == id ==> r.log == l.log && LatestEpoch(r.cache) == l.epoch && Within(r.cache, l.start))
  }

  ghost predicate ReplicasInv(s: Cluster) {
    forall id :: 0 <= id < |s.replicas| ==>
      s.replicas[id].line < |s.lines| && ReplicaInv(s.replicas[id], id, s.lines[s.replicas[id].line])
  }

  ghost predicate Inv(s: Cluster) {
    LinesInv(s.lines) && ReplicasInv(s)
  }

  /** Two lines agree up to some length, and beyond it the later one holds only later epochs. */
  ghost predicate Fork(a: Line, b: Line, m: nat) {
    && m <= |a.log| && m <= |b.log| && a.log[..m] == b.log[..m]
    && a.epoch <= b.epoch
    && forall i :: m <= i < |b.log| ==> b.log[i].epoch > a.epoch
  }

  lemma {:induction false} ForkExtends(a: Line, p: Line, b: Line, k: nat) returns (m: nat)
    requires Fork(a, p, k) && Extends(p, b)
    ensures Fork(a, b, m)
  {
    m := if k < b.start then k else b.start;
    assert a.log[..m] == a.log[..k][..m] == p.log[..k][..m] == p.log[..b.start][..m] == b.log[..m];
    forall i | m <= i < |b.log| ensures b.log[i].epoch > a.epoch {
      if i < b.start { assert b.log[..b.start][i] == p.log[..b.start][i]; }
    }
  }

  lemma {:induction false} ForkPoint(lines: seq<Line>, j: nat, n: nat) returns (m: nat)
    requires LinesInv(lines) && j <= n < |lines|
    ensures Fork(lines[j], lines[n], m)
    decreases n
  {
    if j == n {
      m := |lines[j].log|;
    } else {
      var k := ForkPoint(lines, j, n - 1);
      assert LineInv(lines, n);
      m := ForkExtends(lines[j], lines[n - 1], lines[n], k);
    }
  }

  // ---------------------------------------------------------------- truncation against a leader

  /** No message that both hold is of a later epoch than the follower's latest, nor beyond what it keeps. */
  lemma {:induction false} KeepsCommon(r: Replica, leader: Replica)
    requires EpochFence.Inv(View(r)) && EpochFence.Inv(View(leader)) && LatestEpoch(r.cache) + 1 < U64
    ensures -1 <= Answer(leader, LatestEpoch(r.cache))
    ensures forall i :: 0 <= i < |r.log| ==> r.log[i].epoch <= LatestEpoch(r.cache)
    ensures forall i :: KeptLength(r, leader) <= i < |r.log| && i < |leader.log| ==>
              leader.log[i].epoch > LatestEpoch(r.cache)
  {
    var f := LatestEpoch(r.cache);
    EpochFence.EpochsBounded(View(r));
    forall i | 0 <= i < |r.log| ensures r.log[i].epoch <= f {
      assert View(r).epochs[i] == r.log[i].epoch;
    }
    var g := View(leader);
    EpochFence.FenceOfInv(g, f);
    var k := EpochFence.AnswerAt(g, f);
    var l := Answer(leader, f);
    forall i | KeptLength(r, leader) <= i < |r.log| && i < |leader.log| ensures leader.log[i].epoch > f {
      assert g.epochs[i] == leader.log[i].epoch;
      assert l < i;
      assert !EpochFence.StartsAtMinusOne(g, f);
    }
  }

  /** Truncation against a leader of the same or a later line leaves a prefix of the leader's log exactly when the check
      passes; in either case it drops no message that the leader holds at the same offset. */
  lemma {:induction false} TruncationAgrees(s: Cluster, id: nat, line: nat)
    requires Inv(s) && id < |s.replicas| && s.replicas[id].line <= line < |s.lines| && IsLed(s, line)
    ensures var r, leader := s.replicas[id], s.replicas[s.lines[line].leader];
            var t := Truncated(r, leader);
            && (t.log <= leader.log <==> Agreeable(r, leader))
            && forall i :: 0 <= i < |r.log| && i < |leader.log| && r.log[i] == leader.log[i] ==> i < |t.log|
  {
    var r := s.replicas[id];
    var m := ForkPoint(s.lines, r.line, line);
    assert LineInv(s.lines, r.line) && LineInv(s.lines, line);
    TruncationOnFork(r, s.replicas[s.lines[line].leader], id, s.lines[r.line], s.lines[line], m);
  }

  lemma {:induction false} TruncationOnFork(r: Replica, leader: Replica, id: nat, a: Line, b: Line, m: nat)
    requires ReplicaInv(r, id, a) && a.epoch + 1 < U64
    requires ReplicaInv(leader, b.leader, b) && leader.log == b.log && NonDecreasing(b.log)
    requires Fork(a, b, m)
    ensures var t := Truncated(r, leader);
            && t.log == r.log[..KeptLength(r, leader)]
            && (t.log <= leader.log <==> Agreeable(r, leader))
            && forall i :: 0 <= i < |r.log| && i < |leader.log| && r.log[i] == leader.log[i] ==> i < |t.log|
  {
    KeepsCommon(r, leader);
    var k := KeptLength(r, leader);
    var t := Truncated(r, leader);
    assert r.log[..|r.log|] == r.log;
    assert t.log == r.log[..k];
    if Agreeable(r, leader) {
      if k > 0 {
        assert k - 1 < m;
        assert r.log[..k] == a.log[..m][..k] == b.log[..m][..k] == leader.log[..k];
      }
    } else {
      assert t.log[k - 1] == r.log[k - 1];
    }
  }

  /** Cutting a log and its cache at an offset keeps them in agreement. */
  lemma {:induction false} CutKeepsFence(r: Replica, k: nat, t: Replica)
    requires EpochFence.Inv(View(r)) && Within(r.cache, |r.log|) && k < |r.log|
    requires t.log == r.log[..k] && t.cache == ClearedLatest(r.cache, k)
    ensures EpochFence.Inv(View(t)) && Within(t.cache, k)
    ensures LatestEpoch(t.cache) <= LatestEpoch(r.cache)
    ensures forall i :: k <= i < |r.log| ==> LatestEpoch(t.cache) <= r.log[i].epoch
  {
    ClearedLatestKeeps(r.cache, k);
    EpochFence.TruncateKeepsInv(View(r), k);
    assert View(t) == EpochFence.Truncate(View(r), k);
    forall i | k <= i < |r.log| ensures LatestEpoch(t.cache) <= r.log[i].epoch {
      CutIsBelow(View(r), t.cache, i);
      assert View(r).epochs[i] == r.log[i].epoch;
    }
  }

  lemma {:induction false} CutIsBelow(g: EpochFence.EpochLog, c: Cache, i: nat)
    requires EpochFence.Inv(g) && i < |g.epochs| && c <= g.cache
    requires forall k :: 0 <= k < |c| ==> c[k].startOffset < g.base + i
    ensures LatestEpoch(c) <= g.epochs[i]
  {
    if c != [] {
      assert EpochFence.Split(g, g.cache[|c| - 1], i);
    }
  }

  /** A replica that holds a prefix of an earlier line, cut to a prefix of a later one, goes on from there. */
  lemma {:induction false} CutKeepsReplica(r: Replica, k: nat, t: Replica, id: nat, a: Line, b: Line, m: nat)
    requires ReplicaInv(r, id, a) && Fork(a, b, m) && b.leader != id
    requires k <= |r.log| && t.log == r.log[..k] <= b.log
    requires if k < |r.log| then t.cache == ClearedLatest(r.cache, k) else t.cache == r.cache
    ensures ReplicaInv(t, id, b)
  {
    if k < |r.log| {
      CutKeepsFence(r, k, t);
    } else {
      assert t.log == r.log && View(t) == View(r);
    }
    forall i | k <= i < |b.log| ensures LatestEpoch(t.cache) <= b.log[i].epoch {
      if i < m {
        assert a.log[..m][i] == b.log[..m][i];
      }
    }
  }

  lemma {:induction false} FollowKeepsReplica(r: Replica, leader: Replica, id: nat, a: Line, b: Line, m: nat,
        t: Replica)
    requires ReplicaInv(r, id, a) && a.epoch + 1 < U64
    requires ReplicaInv(leader, b.leader, b) && leader.log == b.log && NonDecreasing(b.log) && b.leader != id
    requires Fork(a, b, m) && Agreeable(r, leader)
    requires t.log == Truncated(r, leader).log && t.cache == Truncated(r, leader).cache
    ensures ReplicaInv(t, id, b)
  {
    TruncationOnFork(r, leader, id, a, b, m);
    KeepsCommon(r, leader);
    CutKeepsReplica(r, KeptLength(r, leader), t, id, a, b, m);
  }

  lemma {:induction false} CutToHWKeepsReplica(r: Replica, id: nat, a: Line, b: Line, m: nat, t: Replica)
    requires ReplicaInv(r, id, a) && Fork(a, b, m) && b.leader != id
    requires t.log == CutToHW(r).log && t.cache == CutToHW(r).cache && t.log <= b.log
    ensures ReplicaInv(t, id, b)
  {
    var k := if 0 <= r.hw + 1 < |r.log| then r.hw + 1 else |r.log|;
    assert t.log == r.log[..k];
    CutKeepsReplica(r, k, t, id, a, b, m);
  }

  // ---------------------------------------------------------------- every sound step keeps them

  lemma {:induction false} FollowKeepsInv(s: Cluster, id: nat, line: nat, from: nat)
    requires Inv(s) && Enabled(s, Follow(id, line, from)) && Sound(s, Follow(id, line, from))
    ensures Inv(Next(s, Follow(id, line, from)))
  {
    var r := s.replicas[id];
    var m := ForkPoint(s.lines, r.line, line);
    assert LineInv(s.lines, r.line) && LineInv(s.lines, line);
    var t := Next(s, Follow(id, line, from)).replicas[id];
    FollowKeepsReplica(r, s.replicas[from], id, s.lines[r.line], s.lines[line], m, t);
  }

  lemma {:induction false} FollowHWKeepsInv(s: Cluster, id: nat, line: nat)
    requires Inv(s) && Enabled(s, FollowHW(id, line)) && Sound(s, FollowHW(id, line))
    ensures Inv(Next(s, FollowHW(id, line)))
  {
    var r := s.replicas[id];
    var m := ForkPoint(s.lines, r.line, line);
    var t := Next(s, FollowHW(id, line)).replicas[id];
    CutToHWKeepsReplica(r, id, s.lines[r.line], s.lines[line], m, t);
  }

  lemma {:induction false} AppendKeepsReplica(r: Replica, id: nat, a: Line, b: Line)
    requires ReplicaInv(r, id, a) && NonDecreasing(b.log)
    requires a.log <= b.log && a.leader == b.leader && a.epoch == b.epoch && a.start == b.start
    requires |r.log| < |b.log|
    requires forall i :: |a.log| <= i < |b.log| ==> b.log[i].epoch == b.epoch
    requires b.log[|r.log|].epoch <= b.epoch
    requires b.leader == id ==> |b.log| == |r.log| + 1
    ensures ReplicaInv(AppendMsg(r, b.log[|r.log|]), id, b)
  {
    var m := b.log[|r.log|];
    var t := AppendMsg(r, m);
    assert Epochs(t.log) == Epochs(r.log) + [m.epoch];
    assert View(t) == EpochFence.Append(View(r), m.epoch);
    EpochFence.AppendKeepsInv(View(r), m.epoch);
  }

  lemma {:induction false} FetchKeepsInv(s: Cluster, id: nat)
    requires Inv(s) && Enabled(s, Fetch(id))
    ensures Inv(Next(s, Fetch(id)))
  {
    var l := s.lines[s.replicas[id].line];
    assert LineInv(s.lines, s.replicas[id].line);
    AppendKeepsReplica(s.replicas[id], id, l, l);
  }

  lemma {:induction false} WriteKeepsLines(lines: seq<Line>, n: nat, m: Msg)
    requires LinesInv(lines) && 0 < n < |lines| && m.epoch == lines[n].epoch
    ensures LinesInv(lines[n := lines[n].(log := lines[n].log + [m])])
  {
    var after := lines[n := lines[n].(log := lines[n].log + [m])];
    forall k | 0 <= k < |after| ensures LineInv(after, k) {
      assert LineInv(lines, k);
      if k == n {
        assert after[k].log[..after[k].start] == lines[k].log[..after[k].start];
      } else if k == n + 1 {
        assert after[n].log[..after[k].start] == lines[n].log[..after[k].start];
      }
    }
  }

  lemma {:induction false} WriteKeepsInv(s: Cluster, id: nat, payload: string)
    requires Inv(s) && Enabled(s, Write(id, payload))
    ensures Inv(Next(s, Write(id, payload)))
  {
    var t := Next(s, Write(id, payload));
    var line := s.replicas[id].line;
    var m := Msg(s.lines[line].epoch, payload);
    WriteKeepsLines(s.lines, line, m);
    assert LineInv(s.lines, line) && LineInv(t.lines, line);
    AppendKeepsReplica(s.replicas[id], id, s.lines[line], t.lines[line]);
  }

  lemma {:induction false} ElectKeepsInv(s: Cluster, id: nat, epoch: nat, kept: map<nat, int>)
    requires Inv(s) && Enabled(s, Elect(id, epoch, kept))
    ensures Inv(Next(s, Elect(id, epoch, kept)))
  {
    var t := Next(s, Elect(id, epoch, kept));
    var n := |s.lines|;
    var r := s.replicas[id];
    assert LineInv(s.lines, n - 1);
    EpochFence.OpenKeepsInv(View(r), epoch);
    assert View(t.replicas[id]) == EpochFence.Open(View(r), epoch);
    forall k | 0 <= k < |t.lines| ensures LineInv(t.lines, k) {
      if k < n { assert LineInv(s.lines, k); }
    }
  }

  /** The lines have the same logs, and so have the replicas. */
  ghost predicate SameLine(a: Line, b: Line) {
    a.epoch == b.epoch && a.leader == b.leader && a.start == b.start && a.log == b.log
  }

  ghost predicate SameLogs(s: Cluster, t: Cluster) {
    && |t.lines| == |s.lines| && |t.replicas| == |s.replicas|
    && (forall n :: 0 <= n < |s.lines| ==> SameLine(s.lines[n], t.lines[n]))
    && (forall id :: 0 <= id < |s.replicas| ==> SameReplica(s.replicas[id], t.replicas[id]))
  }

  ghost predicate SameReplica(r: Replica, t: Replica) {
    t.log == r.log && t.cache == r.cache && t.line == r.line
  }

  lemma {:induction false} SameLogsKeepInv(s: Cluster, t: Cluster)
    requires Inv(s) && SameLogs(s, t)
    ensures Inv(t)
  {
    forall n | 0 <= n < |t.lines| ensures LineInv(t.lines, n) {
      assert LineInv(s.lines, n) && SameLine(s.lines[n], t.lines[n]);
      assert n > 0 ==> SameLine(s.lines[n - 1], t.lines[n - 1]);
    }
    forall id | 0 <= id < |t.replicas|
      ensures t.replicas[id].line < |t.lines| && ReplicaInv(t.replicas[id], id, t.lines[t.replicas[id].line])
    {
      var r, q := s.replicas[id], t.replicas[id];
      assert SameReplica(r, q) && SameLine(s.lines[r.line], t.lines[r.line]);
      assert View(q) == View(r);
    }
  }

  lemma {:induction false} OtherStepsKeepLogs(s: Cluster, step: Step)
    requires Enabled(s, step) && !step.Elect? && !step.Follow? && !step.FollowHW? && !step.Write? && !step.Fetch?
    ensures SameLogs(s, Next(s, step))
  {
  }

  lemma {:induction false} StepKeepsInv(s: Cluster, step: Step)
    requires Inv(s) && Enabled(s, step) && Sound(s, step)
    ensures Inv(Next(s, step))
  {
    match step {
      case Elect(id, epoch, kept) => ElectKeepsInv(s, id, epoch, kept);
      case Follow(id, line, from) => FollowKeepsInv(s, id, line, from);
      case FollowHW(id, line) => FollowHWKeepsInv(s, id, line);
      case Write(id, payload) => WriteKeepsInv(s, id, payload);
      case Fetch(id) => FetchKeepsInv(s, id);
      case _ =>
        OtherStepsKeepLogs(s, step);
        SameLogsKeepInv(s, Next(s, step));
    }
  }

  lemma {:induction false} InitHasInv(s: Cluster)
    requires Init(s)
    ensures Inv(s)
  {
    assert EpochFence.Inv(View(Replica([], [], 0, -1, map[])));
  }

  lemma {:induction false} RunKeepsInv(run: seq<Cluster>, steps: seq<Step>, n: nat)
    requires IsRun(run, steps) && n < |run| && SoundUntil(run, steps, n)
    ensures Inv(run[n])
  {
    if n == 0 {
      InitHasInv(run[0]);
    } else {
      RunKeepsInv(run, steps, n - 1);
      assert StepAt(run, steps, n - 1) && Sound(run[n - 1], steps[n - 1]);
      StepKeepsInv(run[n - 1], steps[n - 1]);
    }
  }
}

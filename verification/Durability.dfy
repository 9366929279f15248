/** When what a leader committed survives elections: the ISR, the offsets it tracks and the high watermark over many
    epochs. */
module Durability {
  import opened Integers
  import opened HandOver
  import opened Tracking
  import Elections

  // ---------------------------------------------------------------- elections that go right

  /** The leader has the replica in its ISR, no removal of it is under way, and the replica has reported all that the
      leader's log held when the epoch began and all that was committed since. */
  predicate CaughtUp(l: Line, id: nat) {
    && id in l.isr && Remove(id) !in l.pending
    && Reported(l, id) + 1 >= l.start && Reported(l, id) + 1 >= l.committed
  }

  /** No offset in the map is past the log. */
  predicate WithinLog(r: Replica, kept: map<nat, int>) {
    forall m <- kept :: kept[m] < |r.log|
  }

  /** An election of a caught-up replica that stores what the old leader tracks of it and keeps no offset past its own
      log; a truncation that is sound. */
  predicate Trusted(s: Cluster, step: Step) {
    match step
    case Elect(id, _, kept) =>
      && |s.lines| > 0 && id < |s.replicas| && CaughtUp(s.lines[|s.lines| - 1], id)
      && s.lines[|s.lines| - 1].isr[id] < |s.replicas[id].log| && WithinLog(s.replicas[id], kept)
    case Follow(_, _, _) => Sound(s, step)
    case _ => true
  }

  ghost predicate TrustedUntil(run: seq<Cluster>, steps: seq<Step>, n: nat)
    requires |run| == |steps| + 1 && n <= |steps|
  {
    forall i :: 0 <= i < n ==> Trusted(run[i], steps[i])
  }

  // ---------------------------------------------------------------- the invariant

  ghost predicate TrackedInv(l: Line) {
    && (forall m <- l.sent :: -1 <= l.sent[m] < |l.log|)
    && (forall m <- l.isr :: l.isr[m] < |l.log|)
  }

  ghost predicate SentInv(s: Cluster, n: nat)
    requires n < |s.lines|
  {
    forall m <- s.lines[n].sent ::
      && m < |s.replicas| && n <= s.replicas[m].line
      && (s.replicas[m].line == n ==> s.lines[n].sent[m] < |s.replicas[m].log|)
  }

  ghost predicate LineSafe(s: Cluster, n: nat)
    requires n < |s.lines|
  {
    && TrackedInv(s.lines[n]) && SentInv(s, n) && s.lines[n].committed <= |s.lines[n].log|
    && (n > 0 ==> s.lines[n].leader < |s.replicas| && n <= s.replicas[s.lines[n].leader].line)
  }

  /** A line's successor stays in its ISR and reported no more than it started with, so nothing past that start is ever
      committed in the line. */
  ghost predicate Succeeds(a: Line, b: Line) {
    && a.start <= b.start && a.committed <= b.start
    && b.leader in a.isr && a.isr[b.leader] < b.start
    && (b.leader in a.sent ==> a.sent[b.leader] < b.start)
    && Remove(b.leader) !in a.pending
  }

  /** A high watermark learned in a line is at most what was committed in it or an earlier one. */
  ghost predicate Covered(lines: seq<Line>, n: nat, hw: int) {
    hw == -1 || (0 <= hw && exists j :: 0 <= j <= n && j < |lines| && hw < lines[j].committed)
  }

  ghost predicate EachSafe(s: Cluster) {
    forall n :: 0 <= n < |s.lines| ==> LineSafe(s, n)
  }

  ghost predicate EachSucceeds(lines: seq<Line>) {
    forall n :: 0 < n < |lines| ==> Succeeds(lines[n - 1], lines[n])
  }

  ghost predicate EachCovered(s: Cluster) {
    && (forall n :: 0 <= n < |s.lines| ==> Covered(s.lines, n, s.lines[n].hw))
    && (forall id :: 0 <= id < |s.replicas| ==> Covered(s.lines, s.replicas[id].line, s.replicas[id].hw))
  }

  ghost predicate Safe(s: Cluster) {
    EachSafe(s) && EachSucceeds(s.lines) && EachCovered(s)
  }

  // ---------------------------------------------------------------- committed prefixes

  lemma {:induction false} StartsCover(s: Cluster, j: nat, n: nat)
    requires EachSucceeds(s.lines) && j < n < |s.lines|
    ensures s.lines[j].committed <= s.lines[n].start && s.lines[j].start <= s.lines[n].start
    decreases n
  {
    assert Succeeds(s.lines[n - 1], s.lines[n]);
    if j < n - 1 {
      StartsCover(s, j, n - 1);
    }
  }

  lemma {:induction false} CommittedPrefix(s: Cluster, j: nat, n: nat)
    requires LinesInv(s.lines) && EachSafe(s) && EachSucceeds(s.lines) && j <= n < |s.lines|
    ensures s.lines[j].committed <= |s.lines[j].log|
    ensures s.lines[j].log[..s.lines[j].committed] <= s.lines[n].log
    decreases n
  {
    assert LineInv(s.lines, n) && LineSafe(s, j);
    if j == n {
    } else {
      CommittedPrefix(s, j, n - 1);
      StartsCover(s, j, n);
      var c, m := s.lines[j].committed, s.lines[n].start;
      assert s.lines[n].log[..c] == s.lines[n].log[..m][..c] == s.lines[n - 1].log[..m][..c] == s.lines[n - 1].log[..c];
    }
  }

  /** Cutting to the high watermark leaves only committed messages, which every later leader has. */
  lemma {:induction false} CutToHWIsSound(s: Cluster, id: nat, line: nat)
    requires Inv(s) && Safe(s) && Enabled(s, FollowHW(id, line))
    ensures Sound(s, FollowHW(id, line))
  {
    var r := s.replicas[id];
    assert ReplicaInv(r, id, s.lines[r.line]);
    CutCovered(s, r, line);
  }

  lemma {:induction false} CutCovered(s: Cluster, r: Replica, line: nat)
    requires LinesInv(s.lines) && EachSafe(s) && EachSucceeds(s.lines) && r.line <= line < |s.lines|
    requires r.log <= s.lines[r.line].log && Covered(s.lines, r.line, r.hw)
    ensures CutToHW(r).log <= s.lines[line].log
  {
    if r.hw == -1 {
      CutToNothing(r);
    } else {
      var j :| 0 <= j <= r.line && j < |s.lines| && r.hw < s.lines[j].committed;
      CommittedPrefix(s, j, r.line);
      CommittedPrefix(s, j, line);
      CutWithin(r, s.lines[j], s.lines[r.line], s.lines[line]);
    }
  }

  lemma {:induction false} CutToNothing(r: Replica)
    requires r.hw == -1
    ensures CutToHW(r).log == []
  {
  }

  lemma {:induction false} CutWithin(r: Replica, c: Line, a: Line, b: Line)
    requires r.log <= a.log && 0 <= r.hw < c.committed <= |c.log|
    requires c.log[..c.committed] <= a.log && c.log[..c.committed] <= b.log
    ensures CutToHW(r).log <= b.log
  {
    var t, p := CutToHW(r), c.log[..c.committed];
    assert t.log <= a.log && |t.log| <= |p|;
    forall i | 0 <= i < |t.log| ensures t.log[i] == b.log[i] {
      assert p[i] == a.log[i] && p[i] == b.log[i];
    }
  }

  // ---------------------------------------------------------------- every trusted step keeps it

  ghost predicate SameLeader(a: Line, b: Line) {
    a.leader == b.leader && a.start == b.start
  }

  /** Only one line changed. */
  lemma {:induction false} LineKeepsSafe(s: Cluster, n: nat, l: Line)
    requires Safe(s) && n < |s.lines| && SameLeader(s.lines[n], l)
    requires TrackedInv(l) && SentInv(WithLine(s, n, l), n) && s.lines[n].committed <= l.committed <= |l.log|
    requires n + 1 < |s.lines| ==> Succeeds(l, s.lines[n + 1])
    requires Covered(s.lines, n, l.hw)
    ensures Safe(WithLine(s, n, l))
  {
    LineKeepsEach(s, n, l);
    LineKeepsCovered(s, n, l);
    LineKeepsSuccession(s.lines, n, l);
  }

  lemma {:induction false} LineKeepsEach(s: Cluster, n: nat, l: Line)
    requires EachSafe(s) && n < |s.lines| && SameLeader(s.lines[n], l)
    requires TrackedInv(l) && SentInv(WithLine(s, n, l), n) && l.committed <= |l.log|
    ensures EachSafe(WithLine(s, n, l))
  {
    var t := WithLine(s, n, l);
    forall k | 0 <= k < |t.lines| ensures LineSafe(t, k) {
      assert LineSafe(s, k);
    }
  }

  lemma {:induction false} LineKeepsSuccession(lines: seq<Line>, n: nat, l: Line)
    requires EachSucceeds(lines) && n < |lines| && SameLeader(lines[n], l)
    requires n + 1 < |lines| ==> Succeeds(l, lines[n + 1])
    ensures EachSucceeds(lines[n := l])
  {
    var after := lines[n := l];
    forall k | 0 < k < |after| ensures Succeeds(after[k - 1], after[k]) {
      assert Succeeds(lines[k - 1], lines[k]);
    }
  }

  lemma {:induction false} LineKeepsCovered(s: Cluster, n: nat, l: Line)
    requires EachCovered(s) && n < |s.lines| && s.lines[n].committed <= l.committed
    requires Covered(s.lines, n, l.hw)
    ensures EachCovered(WithLine(s, n, l))
  {
    var t := WithLine(s, n, l);
    assert CommitsGrow(s.lines, t.lines);
    forall k | 0 <= k < |t.lines| ensures Covered(t.lines, k, t.lines[k].hw) {
      CoveredStays(s.lines, t.lines, k, t.lines[k].hw);
    }
    forall id | 0 <= id < |t.replicas| ensures Covered(t.lines, t.replicas[id].line, t.replicas[id].hw) {
      CoveredStays(s.lines, t.lines, s.replicas[id].line, s.replicas[id].hw);
    }
  }

  /** What is committed in a line only grows. */
  ghost predicate CommitsGrow(lines: seq<Line>, later: seq<Line>) {
    |lines| <= |later| && forall j :: 0 <= j < |lines| ==> lines[j].committed <= later[j].committed
  }

  lemma {:induction false} CoveredStays(lines: seq<Line>, later: seq<Line>, n: nat, hw: int)
    requires Covered(lines, n, hw) && CommitsGrow(lines, later)
    ensures Covered(later, n, hw)
  {
    if hw != -1 {
      var j :| 0 <= j <= n && j < |lines| && hw < lines[j].committed;
      assert hw < later[j].committed;
    }
  }

  lemma {:induction false} CoveredLater(lines: seq<Line>, n: nat, m: nat, hw: int)
    requires Covered(lines, n, hw) && n <= m
    ensures Covered(lines, m, hw)
  {
    if hw != -1 {
      var j :| 0 <= j <= n && j < |lines| && hw < lines[j].committed;
    }
  }

  /** Only one replica changed: it may have moved to a later line, and keeps what it reported in the one it is in. */
  lemma {:induction false} ReplicaKeepsSafe(s: Cluster, id: nat, r: Replica)
    requires Safe(s) && id < |s.replicas| && s.replicas[id].line <= r.line < |s.lines|
    requires r.line == s.replicas[id].line && id in s.lines[r.line].sent ==> s.lines[r.line].sent[id] < |r.log|
    requires Covered(s.lines, r.line, r.hw)
    ensures Safe(WithReplica(s, id, r))
  {
    var t := WithReplica(s, id, r);
    forall k | 0 <= k < |t.lines| ensures LineSafe(t, k) {
      assert LineSafe(s, k);
    }
  }

  /** The part of the other invariant that matters here. */
  ghost predicate HoldsPrefix(s: Cluster, id: nat)
    requires id < |s.replicas|
  {
    var r := s.replicas[id];
    && r.line < |s.lines| && r.log <= s.lines[r.line].log
    && (r.line > 0 && s.lines[r.line].leader == id ==> r.log == s.lines[r.line].log)
    && (r.line == 0 ==> s.lines[0].log == [])
  }

  lemma {:induction false} InvHoldsPrefix(s: Cluster, id: nat)
    requires Inv(s) && id < |s.replicas|
    ensures HoldsPrefix(s, id)
  {
    assert LineInv(s.lines, 0);
  }

  lemma {:induction false} RequestKeepsSafe(s: Cluster, id: nat)
    requires Safe(s) && Enabled(s, Request(id)) && HoldsPrefix(s, id)
    ensures Safe(Next(s, Request(id)))
  {
    var n := s.replicas[id].line;
    var t := Next(s, Request(id));
    assert LineSafe(s, n) && Covered(s.lines, n, s.lines[n].hw);
    assert n + 1 < |s.lines| ==> Succeeds(s.lines[n], s.lines[n + 1]) && LineSafe(s, n + 1);
    LineKeepsSafe(s, n, t.lines[n]);
  }

  /** A line whose offsets and pending changes alone are new. */
  lemma {:induction false} TrackingKeepsSafe(s: Cluster, n: nat, isr: map<nat, int>, pending: seq<Change>,
        committed: nat)
    requires Safe(s) && n < |s.lines|
    requires var l := s.lines[n].(isr := isr, pending := pending, committed := committed);
             && (forall m <- isr :: isr[m] < |l.log|)
             && s.lines[n].committed <= committed <= |l.log|
             && (n + 1 < |s.lines| ==> Succeeds(l, s.lines[n + 1]))
    ensures Safe(WithLine(s, n, s.lines[n].(isr := isr, pending := pending, committed := committed)))
  {
    var l := s.lines[n].(isr := isr, pending := pending, committed := committed);
    assert LineSafe(s, n) && Covered(s.lines, n, l.hw);
    LineKeepsSafe(s, n, l);
  }

  lemma {:induction false} TrackKeepsSafe(s: Cluster, n: nat, id: nat, offset: int)
    requires Safe(s) && Enabled(s, Track(n, id, offset))
    ensures Safe(Next(s, Track(n, id, offset)))
  {
    var l := s.lines[n];
    assert LineSafe(s, n) && (n + 1 < |s.lines| ==> Succeeds(l, s.lines[n + 1]));
    TrackingKeepsSafe(s, n, l.isr[id := Max(l.isr[id], offset)], l.pending, l.committed);
  }

  lemma {:induction false} ReportKeepsSafe(s: Cluster, n: nat)
    requires Safe(s) && Enabled(s, Report(n))
    ensures Safe(Next(s, Report(n)))
  {
    var l := s.lines[n];
    assert LineSafe(s, n) && (n + 1 < |s.lines| ==> Succeeds(l, s.lines[n + 1]) && LineSafe(s, n + 1));
    TrackingKeepsSafe(s, n, l.isr[l.leader := Max(l.isr[l.leader], |l.log| - 1)], l.pending, l.committed);
  }

  lemma {:induction false} ProposeKeepsSafe(s: Cluster, change: Change)
    requires Safe(s) && Enabled(s, Propose(change))
    ensures Safe(Next(s, Propose(change)))
  {
    var n := |s.lines| - 1;
    assert LineSafe(s, n);
    TrackingKeepsSafe(s, n, s.lines[n].isr, s.lines[n].pending + [change], s.lines[n].committed);
  }

  lemma {:induction false} ApplyKeepsSafe(s: Cluster, n: nat)
    requires Safe(s) && Enabled(s, Apply(n))
    ensures Safe(Next(s, Apply(n)))
  {
    var l := s.lines[n];
    assert LineSafe(s, n) && (n + 1 < |s.lines| ==> Succeeds(l, s.lines[n + 1]));
    assert l.pending[0] in l.pending && forall x <- l.pending[1..] :: x in l.pending;
    TrackingKeepsSafe(s, n, Applied(l.isr, l.pending[0]), l.pending[1..], l.committed);
  }

  lemma {:induction false} DecideKeepsSafe(s: Cluster, n: nat, length: nat)
    requires Safe(s) && Enabled(s, Decide(n, length))
    ensures Safe(Next(s, Decide(n, length)))
  {
    var l := s.lines[n];
    assert LineSafe(s, n) && (n + 1 < |s.lines| ==> Succeeds(l, s.lines[n + 1]));
    var m :| m in l.isr;
    assert length <= l.isr[m] + 1 <= |l.log|;
    TrackingKeepsSafe(s, n, l.isr, l.pending, length);
  }

  lemma {:induction false} AdvanceKeepsSafe(s: Cluster, n: nat)
    requires Safe(s) && Enabled(s, Advance(n))
    ensures Safe(Next(s, Advance(n)))
  {
    var l := s.lines[n];
    var hw := Max(l.hw, l.committed - 1);
    var t := WithLine(s, n, l.(hw := hw));
    AdvanceKeepsLine(s, n, hw);
    assert Covered(t.lines, n, hw) && LineSafe(t, n);
    ReplicaKeepsSafe(t, l.leader, s.replicas[l.leader].(hw := hw));
  }

  lemma {:induction false} AdvanceKeepsLine(s: Cluster, n: nat, hw: int)
    requires Safe(s) && n < |s.lines| && hw == Max(s.lines[n].hw, s.lines[n].committed - 1)
    ensures Safe(WithLine(s, n, s.lines[n].(hw := hw)))
  {
    var l := s.lines[n];
    assert LineSafe(s, n) && Covered(s.lines, n, l.hw);
    assert n + 1 < |s.lines| ==> Succeeds(l, s.lines[n + 1]);
    assert Covered(s.lines, n, hw);
    LineKeepsSafe(s, n, l.(hw := hw));
  }

  lemma {:induction false} LearnKeepsSafe(s: Cluster, id: nat, hw: int)
    requires Safe(s) && Enabled(s, Learn(id, hw))
    ensures Safe(Next(s, Learn(id, hw)))
  {
    var r := s.replicas[id];
    assert LineSafe(s, r.line) && Covered(s.lines, r.line, s.lines[r.line].hw) && Covered(s.lines, r.line, r.hw);
    ReplicaKeepsSafe(s, id, r.(hw := hw));
  }

  lemma {:induction false} FetchKeepsSafe(s: Cluster, id: nat)
    requires Safe(s) && Enabled(s, Fetch(id))
    ensures Safe(Next(s, Fetch(id)))
  {
    var r := s.replicas[id];
    assert LineSafe(s, r.line) && Covered(s.lines, r.line, r.hw);
    ReplicaKeepsSafe(s, id, AppendMsg(r, s.lines[r.line].log[|r.log|]));
  }

  lemma {:induction false} WriteKeepsSafe(s: Cluster, id: nat, payload: string)
    requires Safe(s) && Enabled(s, Write(id, payload)) && HoldsPrefix(s, id)
    ensures Safe(Next(s, Write(id, payload)))
  {
    var n := s.replicas[id].line;
    var l := s.lines[n];
    var r := AppendMsg(s.replicas[id], Msg(l.epoch, payload));
    assert LineSafe(s, n) && Covered(s.lines, n, l.hw) && Covered(s.lines, n, r.hw);
    assert n + 1 < |s.lines| ==> Succeeds(l, s.lines[n + 1]);
    var m := l.(log := r.log);
    var t := WithLine(s, n, m);
    LineKeepsSafe(s, n, m);
    assert LineSafe(t, n) && Covered(t.lines, n, t.replicas[id].hw);
    ReplicaKeepsSafe(t, id, r);
  }

  lemma {:induction false} FollowKeepsSafe(s: Cluster, id: nat, line: nat, t: Replica)
    requires Safe(s) && id < |s.replicas| && s.replicas[id].line <= line < |s.lines| && t.line == line
    requires s.replicas[id].line == line ==> |s.replicas[id].log| <= |t.log|
    requires t.hw == s.replicas[id].hw
    ensures Safe(WithReplica(s, id, t))
  {
    var r := s.replicas[id];
    assert Covered(s.lines, r.line, r.hw) && LineSafe(s, line);
    CoveredLater(s.lines, r.line, line, r.hw);
    ReplicaKeepsSafe(s, id, t);
  }

  /** A replica that follows its own line again keeps its log. */
  lemma {:induction false} FollowAgainKeepsLog(s: Cluster, id: nat, from: nat)
    requires Inv(s) && id < |s.replicas| && Leads(s, from, s.replicas[id].line)
    ensures |s.replicas[id].log| <= |Truncated(s.replicas[id], s.replicas[from]).log|
  {
    var r := s.replicas[id];
    TruncationAgrees(s, id, r.line);
    assert r.log <= s.replicas[from].log;
    var k := |r.log| - 1;
    assert k >= 0 ==> r.log[k] == s.replicas[from].log[k];
  }

  lemma {:induction false} FollowHWKeepsSafe(s: Cluster, id: nat, line: nat)
    requires Safe(s) && Enabled(s, FollowHW(id, line))
    ensures Safe(Next(s, FollowHW(id, line)))
  {
    FollowKeepsSafe(s, id, line, Next(s, FollowHW(id, line)).replicas[id]);
  }

  /** The new line starts with everything committed so far. */
  lemma {:induction false} ElectSucceeds(s: Cluster, id: nat, r: Replica, b: Line)
    requires Safe(s) && id < |s.replicas| && r == s.replicas[id] && r.line == |s.lines| - 1 && HoldsPrefix(s, id)
    requires CaughtUp(s.lines[r.line], id) && s.lines[r.line].isr[id] < |r.log| && b.leader == id && b.start == |r.log|
    ensures Succeeds(s.lines[r.line], b)
  {
    var a := s.lines[r.line];
    assert LineSafe(s, r.line);
    assert Reported(a, id) < |r.log|;
  }

  lemma {:induction false} ElectKeepsSafe(s: Cluster, id: nat, epoch: nat, kept: map<nat, int>)
    requires Safe(s) && Enabled(s, Elect(id, epoch, kept)) && Trusted(s, Elect(id, epoch, kept)) && HoldsPrefix(s, id)
    ensures Safe(Next(s, Elect(id, epoch, kept)))
  {
    var t := Next(s, Elect(id, epoch, kept));
    var r, n := s.replicas[id], |s.lines|;
    ElectSucceeds(s, id, r, t.lines[n]);
    assert CommitsGrow(s.lines, t.lines);
    ElectKeepsEach(s, id, t);
    forall k | 0 < k < |t.lines| ensures Succeeds(t.lines[k - 1], t.lines[k]) {
      if k < n { assert Succeeds(s.lines[k - 1], s.lines[k]); }
    }
    ElectKeepsCovered(s, id, t);
  }

  lemma {:induction false} ElectKeepsEach(s: Cluster, id: nat, t: Cluster)
    requires EachSafe(s) && id < |s.replicas| == |t.replicas| && t.replicas == s.replicas[id := t.replicas[id]]
    requires s.replicas[id].line + 1 == |s.lines| == |t.lines| - 1 == t.replicas[id].line
    requires t.lines[..|s.lines|] == s.lines
    requires var l := t.lines[|s.lines|];
             l.leader == id && l.sent == map[] && l.committed == 0 && forall m <- l.isr :: l.isr[m] < |l.log|
    ensures EachSafe(t)
  {
    forall k | 0 <= k < |t.lines| ensures LineSafe(t, k) {
      if k < |s.lines| {
        assert LineSafe(s, k) && t.lines[k] == s.lines[k];
      }
    }
  }

  lemma {:induction false} ElectKeepsCovered(s: Cluster, id: nat, t: Cluster)
    requires EachCovered(s) && id < |s.replicas| == |t.replicas| && t.replicas == s.replicas[id := t.replicas[id]]
    requires |t.lines| == |s.lines| + 1 && t.lines[..|s.lines|] == s.lines
    requires s.replicas[id].line < |s.lines| == t.replicas[id].line
    requires t.replicas[id].hw == s.replicas[id].hw == t.lines[|s.lines|].hw
    ensures EachCovered(t)
  {
    var n := |s.lines|;
    assert forall k :: 0 <= k < n ==> t.lines[k] == s.lines[k];
    assert CommitsGrow(s.lines, t.lines);
    assert Covered(s.lines, s.replicas[id].line, s.replicas[id].hw);
    CoveredStays(s.lines, t.lines, s.replicas[id].line, s.replicas[id].hw);
    CoveredLater(t.lines, s.replicas[id].line, n, s.replicas[id].hw);
    forall k | 0 <= k < n ensures Covered(t.lines, k, t.lines[k].hw) {
      CoveredStays(s.lines, t.lines, k, s.lines[k].hw);
    }
    forall x | 0 <= x < |t.replicas| && x != id ensures Covered(t.lines, t.replicas[x].line, t.replicas[x].hw) {
      CoveredStays(s.lines, t.lines, s.replicas[x].line, s.replicas[x].hw);
    }
  }

  lemma {:induction false} StepKeepsSafe(s: Cluster, step: Step, t: Cluster)
    requires Inv(s) && Safe(s) && IsStep(s, step, t) && Trusted(s, step)
    ensures Inv(t) && Safe(t) && Sound(s, step)
  {
    if step.Follow? {
      if s.replicas[step.id].line == step.line { FollowAgainKeepsLog(s, step.id, step.from); }
      FollowKeepsSafe(s, step.id, step.line, t.replicas[step.id]);
    } else if step.FollowHW? {
      CutToHWIsSound(s, step.id, step.line);
      FollowHWKeepsSafe(s, step.id, step.line);
    } else {
      if step.Elect? || step.Write? || step.Request? { InvHoldsPrefix(s, step.id); }
      OtherStepsKeepSafe(s, step);
    }
    StepKeepsInv(s, step);
  }

  lemma {:induction false} OtherStepsKeepSafe(s: Cluster, step: Step)
    requires Safe(s) && Enabled(s, step) && Trusted(s, step) && !step.Follow? && !step.FollowHW?
    requires step.Elect? || step.Write? || step.Request? ==> HoldsPrefix(s, step.id)
    ensures Safe(Next(s, step))
  {
    match step {
      case Elect(id, epoch, kept) => ElectKeepsSafe(s, id, epoch, kept);
      case Write(id, payload) => WriteKeepsSafe(s, id, payload);
      case Fetch(id) => FetchKeepsSafe(s, id);
      case Learn(id, hw) => LearnKeepsSafe(s, id, hw);
      case Request(id) => RequestKeepsSafe(s, id);
      case Track(line, id, offset) => TrackKeepsSafe(s, line, id, offset);
      case Report(line) => ReportKeepsSafe(s, line);
      case Propose(change) => ProposeKeepsSafe(s, change);
      case Apply(line) => ApplyKeepsSafe(s, line);
      case Decide(line, length) => DecideKeepsSafe(s, line, length);
      case Advance(line) => AdvanceKeepsSafe(s, line);
    }
  }

  lemma {:induction false} InitIsSafe(s: Cluster)
    requires Init(s)
    ensures Safe(s)
  {
  }

  ghost predicate InvSafe(s: Cluster) {
    Inv(s) && Safe(s)
  }

  lemma {:induction false} StepKeepsInvSafe(s: Cluster, step: Step, t: Cluster)
    requires InvSafe(s) && IsStep(s, step, t) && Trusted(s, step)
    ensures InvSafe(t) && Sound(s, step)
  {
    StepKeepsSafe(s, step, t);
  }

  lemma {:induction false} RunKeepsInvSafe(run: seq<Cluster>, steps: seq<Step>, n: nat)
    requires IsRun(run, steps) && n < |run| && TrustedUntil(run, steps, n)
    ensures InvSafe(run[n]) && (n > 0 ==> Sound(run[n - 1], steps[n - 1]))
  {
    if n == 0 {
      InitHasInv(run[0]);
      InitIsSafe(run[0]);
    } else {
      RunKeepsInvSafe(run, steps, n - 1);
      assert StepAt(run, steps, n - 1) && Trusted(run[n - 1], steps[n - 1]);
      StepKeepsInvSafe(run[n - 1], steps[n - 1], run[n]);
    }
  }

  /** A run whose elections and answers can be trusted is safe at every state, and all its truncations are sound. */
  lemma {:induction false} RunKeepsSafe(run: seq<Cluster>, steps: seq<Step>, n: nat)
    requires IsRun(run, steps) && n < |run| && TrustedUntil(run, steps, n)
    ensures Inv(run[n]) && Safe(run[n]) && SoundUntil(run, steps, n)
  {
    RunKeepsInvSafe(run, steps, n);
    forall i | 0 <= i < n ensures Sound(run[i], steps[i]) {
      RunKeepsInvSafe(run, steps, i + 1);
    }
  }

  // ---------------------------------------------------------------- main results

  /**
   * In every run whose elections pick a caught-up replica that stores what is tracked of it and keeps no offset past
   * its log, and whose truncations are answered by the new leader and agree with it or go to the high watermark, what
   * any leader decided to commit is held unchanged by the leader of every later epoch, whatever the ISR did in between
   * and even if the leader was deposed unawares.
   */
  lemma {:induction false} CommittedSurvive(run: seq<Cluster>, steps: seq<Step>, n: nat, j: nat, k: nat)
    requires IsRun(run, steps) && n < |run| && TrustedUntil(run, steps, n) && j <= k < |run[n].lines|
    ensures var s := run[n];
            && s.lines[j].committed <= |s.lines[j].log|
            && s.lines[j].log[..s.lines[j].committed] <= s.lines[k].log
            && (IsLed(s, k) ==> s.lines[j].log[..s.lines[j].committed] <= s.replicas[s.lines[k].leader].log)
  {
    RunKeepsSafe(run, steps, n);
    CommittedPrefix(run[n], j, k);
    if IsLed(run[n], k) {
      InvHoldsPrefix(run[n], run[n].lines[k].leader);
    }
  }

  /** Nothing less would do: a replica of the last line that has reported all it has takes over what the leader had when
      its epoch began, and what it committed since, if and only if it has reported that much. */
  lemma {:induction false} CaughtUpTakesOver(run: seq<Cluster>, steps: seq<Step>, n: nat, id: nat, epoch: nat,
        kept: map<nat, int>)
    requires IsRun(run, steps) && n < |run| && TrustedUntil(run, steps, n) && Enabled(run[n], Elect(id, epoch, kept))
    requires var s := run[n]; Reported(s.lines[|s.lines| - 1], id) == |s.replicas[id].log| - 1
    ensures var l := run[n].lines[|run[n].lines| - 1];
            var next := Next(run[n], Elect(id, epoch, kept)).lines[|run[n].lines|];
            && l.start <= |l.log| && l.committed <= |l.log|
            && (l.log[..l.start] <= next.log && l.log[..l.committed] <= next.log <==>
                Reported(l, id) + 1 >= l.start && Reported(l, id) + 1 >= l.committed)
  {
    RunKeepsSafe(run, steps, n);
    var s := run[n];
    var m := |s.lines| - 1;
    assert LineInv(s.lines, m) && LineSafe(s, m);
    InvHoldsPrefix(s, id);
    TakesOver(s.lines[m], s.replicas[id]);
  }

  lemma {:induction false} TakesOver(l: Line, r: Replica)
    requires r.log <= l.log && l.start <= |l.log| && l.committed <= |l.log|
    ensures l.log[..l.start] <= r.log <==> l.start <= |r.log|
    ensures l.log[..l.committed] <= r.log <==> l.committed <= |r.log|
  {
    assert l.start <= |r.log| ==> l.log[..l.start] == r.log[..l.start];
    assert l.committed <= |r.log| ==> l.log[..l.committed] == r.log[..l.committed];
  }

  /** In such a run no high watermark is ahead of what was committed: a replica that stores messages up to its high
      watermark stores the committed ones. */
  lemma {:induction false} WatermarksAreCommitted(run: seq<Cluster>, steps: seq<Step>, n: nat, id: nat) returns (j: nat)
    requires IsRun(run, steps) && n < |run| && TrustedUntil(run, steps, n) && id < |run[n].replicas|
    ensures var s := run[n]; var r := s.replicas[id];
            && r.hw >= -1 && j <= r.line < |s.lines|
            && (r.hw >= 0 ==> r.hw < s.lines[j].committed <= |s.lines[j].log|)
            && (0 <= r.hw < |r.log| ==> r.log[..r.hw + 1] == s.lines[j].log[..r.hw + 1])
  {
    RunKeepsSafe(run, steps, n);
    InvHoldsPrefix(run[n], id);
    j := WatermarkLine(run[n], id);
  }

  lemma {:induction false} WatermarkLine(s: Cluster, id: nat) returns (j: nat)
    requires LinesInv(s.lines) && Safe(s) && id < |s.replicas| && HoldsPrefix(s, id)
    ensures var r := s.replicas[id];
            && r.hw >= -1 && j <= r.line
            && (r.hw >= 0 ==> r.hw < s.lines[j].committed <= |s.lines[j].log|)
            && (0 <= r.hw < |r.log| ==> r.log[..r.hw + 1] == s.lines[j].log[..r.hw + 1])
  {
    var r := s.replicas[id];
    assert Covered(s.lines, r.line, r.hw);
    j := 0;
    if r.hw >= 0 {
      j :| 0 <= j <= r.line && j < |s.lines| && r.hw < s.lines[j].committed;
      CommittedPrefix(s, j, r.line);
      var c, m := s.lines[j].committed, r.hw + 1;
      assert m <= |r.log| ==>
          r.log[..m] == s.lines[r.line].log[..m] == s.lines[r.line].log[..c][..m] == s.lines[j].log[..m];
    }
  }

  /** A replica that has been in the ISR since the line began, under leaders that began with fresh offsets, is caught up
      if and only if it has reported all that was there when the line began and no removal of it is under way. */
  lemma {:induction false} AlwaysInSyncIsCaughtUp(run: seq<Cluster>, steps: seq<Step>, n: nat, line: nat, id: nat)
    requires IsRun(run, steps) && n < |run| && FreshUntil(run, steps, n)
    requires line < |run[n].lines| && AlwaysInSync(run, n, line, id)
    ensures var l := run[n].lines[line];
            CaughtUp(l, id) <==> Remove(id) !in l.pending && Reported(l, id) + 1 >= l.start
  {
    AlwaysInSyncReported(run, steps, n, line, id);
    assert id in run[n].lines[line].isr;
  }

  /** The replicas follow the lines one by one, and the elections can be trusted. */
  predicate Careful(s: Cluster, step: Step) {
    Elections.Prompt(s, step) && (step.Elect? ==> Trusted(s, step))
  }

  lemma {:induction false} CarefulIsTrusted(s: Cluster, step: Step)
    requires InvSafe(s) && Enabled(s, step) && Careful(s, step)
    ensures Trusted(s, step)
  {
    if step.Follow? {
      Elections.PromptIsSound(s, step.id, step.line, step.from);
    }
  }

  /** Then nothing needs to be assumed of the truncations: the run is to be trusted, so all of them are sound. */
  lemma {:induction false} CarefulRunsAreTrusted(run: seq<Cluster>, steps: seq<Step>, n: nat)
    requires IsRun(run, steps) && n < |run| && forall i :: 0 <= i < n ==> Careful(run[i], steps[i])
    ensures TrustedUntil(run, steps, n)
  {
    if n == 0 {
    } else {
      CarefulRunsAreTrusted(run, steps, n - 1);
      RunKeepsInvSafe(run, steps, n - 1);
      assert StepAt(run, steps, n - 1) && Careful(run[n - 1], steps[n - 1]);
      CarefulIsTrusted(run[n - 1], steps[n - 1]);
    }
  }
}

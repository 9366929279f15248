/** What the logs have in common over many epochs, and when truncation goes right. */
module Elections {
  import opened Integers
  import opened EpochCache
  import EpochFence
  import opened HandOver

  /** In every run whose truncations were sound, a replica that follows a line holds a prefix of its leader's log. */
  lemma {:induction false} FollowersArePrefixes(run: seq<Cluster>, steps: seq<Step>, n: nat, id: nat)
    requires IsRun(run, steps) && n < |run| && SoundUntil(run, steps, n) && id < |run[n].replicas|
    ensures var s := run[n]; var line := s.replicas[id].line;
            && line < |s.lines| && s.replicas[id].log <= s.lines[line].log
            && (IsLed(s, line) ==> s.replicas[id].log <= s.replicas[s.lines[line].leader].log)
  {
    RunKeepsInv(run, steps, n);
  }

  /** In every run whose truncations were sound, two replicas that hold messages of one epoch at one offset hold the
      same log up to there, whichever epochs they have taken part in. */
  lemma {:induction false} LogsMatch(run: seq<Cluster>, steps: seq<Step>, n: nat, x: nat, y: nat, i: nat)
    requires IsRun(run, steps) && n < |run| && SoundUntil(run, steps, n)
    requires x < |run[n].replicas| && y < |run[n].replicas|
    requires i < |run[n].replicas[x].log| && i < |run[n].replicas[y].log|
    requires run[n].replicas[x].log[i].epoch == run[n].replicas[y].log[i].epoch
    ensures run[n].replicas[x].log[..i + 1] == run[n].replicas[y].log[..i + 1]
  {
    var s := run[n];
    RunKeepsInv(run, steps, n);
    if s.replicas[x].line <= s.replicas[y].line {
      LogsMatchOrdered(s, x, y, i);
    } else {
      LogsMatchOrdered(s, y, x, i);
    }
  }

  lemma {:induction false} LogsMatchOrdered(s: Cluster, x: nat, y: nat, i: nat)
    requires Inv(s) && x < |s.replicas| && y < |s.replicas| && s.replicas[x].line <= s.replicas[y].line
    requires i < |s.replicas[x].log| && i < |s.replicas[y].log|
    requires s.replicas[x].log[i].epoch == s.replicas[y].log[i].epoch
    ensures s.replicas[x].log[..i + 1] == s.replicas[y].log[..i + 1]
  {
    var rx, ry := s.replicas[x], s.replicas[y];
    var a, b := s.lines[rx.line], s.lines[ry.line];
    var m := ForkPoint(s.lines, rx.line, ry.line);
    assert LineInv(s.lines, rx.line);
    assert a.log[i].epoch <= a.epoch && i < m;
    assert rx.log[..i + 1] == a.log[..m][..i + 1] == b.log[..m][..i + 1] == ry.log[..i + 1];
  }

  /** In every run whose truncations were sound so far, the next one, answered by a leader of the same or a later line,
      leaves a prefix of that leader's log if and only if the leader's message at the last kept offset is of an epoch
      the replica knows; and it loses no message the leader holds at the same offset. */
  lemma {:induction false} HandOverAgrees(run: seq<Cluster>, steps: seq<Step>, n: nat, id: nat, line: nat)
    requires IsRun(run, steps) && n < |run| && SoundUntil(run, steps, n)
    requires id < |run[n].replicas| && run[n].replicas[id].line <= line && IsLed(run[n], line)
    ensures var r, leader := run[n].replicas[id], run[n].replicas[run[n].lines[line].leader];
            var t := Truncated(r, leader);
            && (t.log <= leader.log <==> Agreeable(r, leader))
            && forall i :: 0 <= i < |r.log| && i < |leader.log| && r.log[i] == leader.log[i] ==> i < |t.log|
  {
    RunKeepsInv(run, steps, n);
    TruncationAgrees(run[n], id, line);
  }

  // ---------------------------------------------------------------- the leader's answer

  /** The answer is within the leader's log. Up to it no epoch is later than the one asked for; it is the newest offset
      when the next epoch was opened on an empty log. */
  lemma {:induction false} AnswerWithin(leader: Replica, epoch: nat)
    requires EpochFence.Inv(View(leader)) && Within(leader.cache, |leader.log|) && epoch + 1 < U64
    ensures -1 <= Answer(leader, epoch) < |leader.log| && (leader.log != [] ==> 0 <= Answer(leader, epoch))
    ensures !EpochFence.StartsAtMinusOne(View(leader), epoch) ==>
              forall i :: 0 <= i < Answer(leader, epoch) ==> leader.log[i].epoch <= epoch
    ensures !EpochFence.StartsAtMinusOne(View(leader), epoch) ==>
              forall i :: Answer(leader, epoch) < i < |leader.log| ==> leader.log[i].epoch > epoch
    ensures EpochFence.StartsAtMinusOne(View(leader), epoch) ==>
              && Answer(leader, epoch) == |leader.log| - 1
              && forall i :: 0 <= i < |leader.log| ==> leader.log[i].epoch > epoch
  {
    var g := View(leader);
    EpochFence.FenceOfInv(g, epoch);
    var k := EpochFence.AnswerAt(g, epoch);
    forall i | 0 <= i < |leader.log|
      ensures EpochFence.StartsAtMinusOne(g, epoch) ==> leader.log[i].epoch > epoch
      ensures !EpochFence.StartsAtMinusOne(g, epoch) && i < Answer(leader, epoch) ==> leader.log[i].epoch <= epoch
      ensures !EpochFence.StartsAtMinusOne(g, epoch) && i > Answer(leader, epoch) ==> leader.log[i].epoch > epoch
    {
      assert g.epochs[i] == leader.log[i].epoch;
      if EpochFence.StartsAtMinusOne(g, epoch) {
        assert EpochFence.Split(g, g.cache[k], i);
      }
    }
  }

  /** Unless the next epoch was opened on an empty log, the check fails only at the first offset of the later epochs:
      that is the start `append` records, while an opened epoch starts at the last offset before it. */
  lemma {:induction false} DisagreesAtFirstLaterOffset(r: Replica, leader: Replica)
    requires EpochFence.Inv(View(leader)) && Within(leader.cache, |leader.log|) && NonDecreasing(leader.log)
    requires LatestEpoch(r.cache) + 1 < U64 && !EpochFence.StartsAtMinusOne(View(leader), LatestEpoch(r.cache))
    ensures var f := LatestEpoch(r.cache); var l := Answer(leader, f);
            !Agreeable(r, leader) <==>
              && 0 <= l < |r.log| && leader.log[l].epoch > f
              && forall i :: 0 <= i < |leader.log| ==> (leader.log[i].epoch > f <==> l <= i)
  {
    AnswerWithin(leader, LatestEpoch(r.cache));
  }

  // ---------------------------------------------------------------- a replica of the line before

  /** Of what `before` held up to a length, `after` has all, and it is what the leader has. */
  ghost predicate KeepsUpTo(before: seq<Msg>, after: seq<Msg>, leader: seq<Msg>, length: nat) {
    var m := Min(|before|, length);
    m <= |after| && m <= |leader| && before[..m] == after[..m] == leader[..m]
  }

  /**
   * The plain hand-over. In every run whose truncations were sound so far, a replica that took part in the line before
   * truncates to a prefix of the new leader's log if and only if the new leader's log was not empty when its epoch
   * began, or one of the two is empty now. It loses nothing the new leader had when its epoch began.
   */
  lemma {:induction false} PromptHandOver(run: seq<Cluster>, steps: seq<Step>, n: nat, id: nat, line: nat)
    requires IsRun(run, steps) && n < |run| && SoundUntil(run, steps, n)
    requires id < |run[n].replicas| && run[n].replicas[id].line + 1 == line && IsLed(run[n], line)
    ensures var r, l := run[n].replicas[id], run[n].lines[line];
            var leader := run[n].replicas[l.leader];
            var t := Truncated(r, leader);
            && (Agreeable(r, leader) <==> l.start > 0 || r.log == [] || leader.log == [])
            && (t.log <= leader.log <==> l.start > 0 || r.log == [] || leader.log == [])
            && KeepsUpTo(r.log, t.log, leader.log, l.start)
  {
    RunKeepsInv(run, steps, n);
    PromptAgrees(run[n], id, line);
  }

  lemma {:induction false} PromptAgrees(s: Cluster, id: nat, line: nat)
    requires Inv(s) && id < |s.replicas| && s.replicas[id].line + 1 == line && IsLed(s, line)
    ensures var r, l := s.replicas[id], s.lines[line];
            var leader := s.replicas[l.leader];
            var t := Truncated(r, leader);
            && (Agreeable(r, leader) <==> l.start > 0 || r.log == [] || leader.log == [])
            && (t.log <= leader.log <==> l.start > 0 || r.log == [] || leader.log == [])
            && KeepsUpTo(r.log, t.log, leader.log, l.start)
  {
    var r, b := s.replicas[id], s.lines[line];
    assert LineInv(s.lines, line) && LineInv(s.lines, line - 1);
    PromptOnLines(r, s.replicas[b.leader], id, s.lines[line - 1], b);
  }

  lemma {:induction false} PromptOnLines(r: Replica, leader: Replica, id: nat, a: Line, b: Line)
    requires ReplicaInv(r, id, a) && Extends(a, b) && Wellformed(a) && Wellformed(b)
    requires ReplicaInv(leader, b.leader, b) && leader.line > 0
    ensures var t := Truncated(r, leader);
            && (Agreeable(r, leader) <==> b.start > 0 || r.log == [] || leader.log == [])
            && (t.log <= leader.log <==> b.start > 0 || r.log == [] || leader.log == [])
            && KeepsUpTo(r.log, t.log, leader.log, b.start)
  {
    PromptCheck(r, leader, id, a, b);
    assert Fork(a, a, |a.log|);
    var m := ForkExtends(a, a, b, |a.log|);
    TruncationOnFork(r, leader, id, a, b, m);
    CommonIsKept(r.log, KeptLength(r, leader), leader.log, a.log, b.start);
  }

  lemma {:induction false} CommonIsKept(r: seq<Msg>, k: nat, leader: seq<Msg>, line: seq<Msg>, start: nat)
    requires k <= |r| && r <= line && start <= |line| && start <= |leader| && line[..start] == leader[..start]
    requires forall i :: 0 <= i < |r| && i < |leader| && r[i] == leader[i] ==> i < k
    ensures KeepsUpTo(r, r[..k], leader, start)
  {
    var m := Min(|r|, start);
    assert r[..m] == line[..m] == line[..start][..m] == leader[..start][..m] == leader[..m];
    if m > 0 {
      assert r[m - 1] == r[..m][m - 1] == leader[..m][m - 1] == leader[m - 1];
    }
    assert r[..k][..m] == r[..m];
  }

  lemma {:induction false} TruncatedIsPrefix(s: Cluster, id: nat, line: nat)
    requires Inv(s) && id < |s.replicas| && s.replicas[id].line <= line && IsLed(s, line)
    ensures Truncated(s.replicas[id], s.replicas[s.lines[line].leader]).log <= s.replicas[id].log
  {
    var r := s.replicas[id];
    var m := ForkPoint(s.lines, r.line, line);
    assert LineInv(s.lines, r.line) && LineInv(s.lines, line);
    TruncationOnFork(r, s.replicas[s.lines[line].leader], id, s.lines[r.line], s.lines[line], m);
  }

  lemma {:induction false} PromptCheck(r: Replica, leader: Replica, id: nat, a: Line, b: Line)
    requires ReplicaInv(r, id, a) && Extends(a, b) && Wellformed(a) && Wellformed(b)
    requires ReplicaInv(leader, b.leader, b) && leader.line > 0
    ensures Agreeable(r, leader) <==> b.start > 0 || r.log == [] || leader.log == []
  {
    KeepsCommon(r, leader);
    AnswerWithin(leader, LatestEpoch(r.cache));
    if b.start > 0 && KeptLength(r, leader) > 0 {
      PromptAnswer(r, leader, id, a, b);
      var k := KeptLength(r, leader) - 1;
      assert a.log[..b.start][k] == b.log[..b.start][k];
    }
  }

  /** The leader opened its epoch at the last offset before it, so it names no later one. */
  lemma {:induction false} PromptAnswer(r: Replica, leader: Replica, id: nat, a: Line, b: Line)
    requires ReplicaInv(r, id, a) && Extends(a, b) && Wellformed(a) && b.start > 0 && r.log != []
    requires ReplicaInv(leader, b.leader, b) && leader.line > 0
    ensures Answer(leader, LatestEpoch(r.cache)) < b.start
  {
    var f, g := LatestEpoch(r.cache), View(leader);
    var k := EpochFence.AnswerAt(g, f);
    assert k < |g.cache|;
    KeepsCommon(r, leader);
    AnswerWithin(leader, f);
    assert a.log[..b.start][0] == b.log[..b.start][0];
    assert !EpochFence.StartsAtMinusOne(g, f);
  }

  /** Each replica follows the lines one by one, or its own once more, and the answer comes from the line's leader. */
  predicate Prompt(s: Cluster, step: Step) {
    match step
    case Follow(id, line, from) =>
      && id < |s.replicas| && Leads(s, from, line)
      && (s.replicas[id].line + 1 == line || s.replicas[id].line == line)
      && (s.lines[line].start > 0 || s.replicas[id].log == [] || s.replicas[from].log == [] ||
          s.replicas[id].line == line)
    case _ => true
  }

  /** Such a truncation is sound. */
  lemma {:induction false} PromptIsSound(s: Cluster, id: nat, line: nat, from: nat)
    requires Inv(s) && Enabled(s, Follow(id, line, from)) && Prompt(s, Follow(id, line, from))
    ensures Sound(s, Follow(id, line, from))
  {
    if s.replicas[id].line == line {
      TruncationAgrees(s, id, line);
      TruncatedIsPrefix(s, id, line);
    } else {
      PromptAgrees(s, id, line);
    }
  }
}

/** What the fields of a leader epoch say about the run so far: the offsets tracked and reported, what is committed and
    the high watermark are exactly the greatest values some step put there. */
module Accounts {
  import opened Integers
  import opened HandOver
  import opened Tracking

  /** The line came to be in state `k`. */
  ghost predicate Begins(run: seq<Cluster>, k: nat, line: nat) {
    k < |run| && line < |run[k].lines| && (k == 0 || |run[k - 1].lines| == line)
  }

  lemma {:induction false} LinesStay(s: Cluster, step: Step, t: Cluster)
    requires IsStep(s, step, t)
    ensures |t.lines| == |s.lines| + if step.Elect? then 1 else 0
  {
  }

  lemma {:induction false} LineBegins(run: seq<Cluster>, steps: seq<Step>, n: nat, line: nat) returns (k: nat)
    requires IsRun(run, steps) && n < |run| && line < |run[n].lines|
    ensures k <= n && Begins(run, k, line)
  {
    if n == 0 {
      k := 0;
    } else {
      assert StepAt(run, steps, n - 1);
      LinesStay(run[n - 1], steps[n - 1], run[n]);
      if line < |run[n - 1].lines| {
        k := LineBegins(run, steps, n - 1, line);
      } else {
        k := n;
      }
    }
  }

  // ---------------------------------------------------------------- tracked offsets

  /** The step tells the leader of a line that a replica has everything up to an offset. */
  predicate Tells(s: Cluster, step: Step, line: nat, m: nat, o: int) {
    line < |s.lines| &&
    (step == Track(line, m, o) || (step == Report(line) && m == s.lines[line].leader && o == |s.lines[line].log| - 1))
  }

  /** The step changes whether a replica is in the leader's ISR. */
  predicate Moves(s: Cluster, step: Step, line: nat, m: nat) {
    step == Apply(line) && line < |s.lines| && s.lines[line].pending != [] && s.lines[line].pending[0].id == m
  }

  lemma {:induction false} StepTracks(s: Cluster, step: Step, t: Cluster, line: nat, m: nat)
    requires IsStep(s, step, t) && line < |s.lines| && m in s.lines[line].isr && !Moves(s, step, line, m)
    ensures line < |t.lines| && m in t.lines[line].isr && s.lines[line].isr[m] <= t.lines[line].isr[m]
    ensures forall o :: Tells(s, step, line, m, o) ==> o <= t.lines[line].isr[m]
    ensures t.lines[line].isr[m] == s.lines[line].isr[m] || Tells(s, step, line, m, t.lines[line].isr[m])
  {
  }

  /** The replica is in the ISR from state `k` on: since the line began, or since the leader added it. */
  ghost predicate Joined(run: seq<Cluster>, steps: seq<Step>, k: nat, line: nat, m: nat)
    requires |run| == |steps| + 1
  {
    && k < |run| && line < |run[k].lines| && m in run[k].lines[line].isr
    && (Begins(run, k, line) || (k > 0 && Moves(run[k - 1], steps[k - 1], line, m)))
  }

  ghost predicate Stays(run: seq<Cluster>, steps: seq<Step>, k: nat, n: nat, line: nat, m: nat)
    requires n <= |steps| && |run| == |steps| + 1
  {
    forall j :: k <= j < n ==> !Moves(run[j], steps[j], line, m)
  }

  lemma {:induction false} MemberJoined(run: seq<Cluster>, steps: seq<Step>, n: nat, line: nat, m: nat) returns (k: nat)
    requires IsRun(run, steps) && n < |run| && line < |run[n].lines| && m in run[n].lines[line].isr
    ensures k <= n && Joined(run, steps, k, line, m) && Stays(run, steps, k, n, line, m)
  {
    if Begins(run, n, line) || Moves(run[n - 1], steps[n - 1], line, m) {
      k := n;
    } else {
      assert StepAt(run, steps, n - 1);
      LinesStay(run[n - 1], steps[n - 1], run[n]);
      MemberBefore(run[n - 1], steps[n - 1], run[n], line, m);
      k := MemberJoined(run, steps, n - 1, line, m);
    }
  }

  lemma {:induction false} MemberBefore(s: Cluster, step: Step, t: Cluster, line: nat, m: nat)
    requires IsStep(s, step, t) && line < |s.lines| && line < |t.lines| && m in t.lines[line].isr
    requires !Moves(s, step, line, m)
    ensures m in s.lines[line].isr
  {
  }

  ghost predicate ToldAt(run: seq<Cluster>, steps: seq<Step>, i: nat, line: nat, m: nat, o: int)
    requires i < |steps| && |run| == |steps| + 1
  {
    Tells(run[i], steps[i], line, m, o)
  }

  /** What a replica joins with: nothing when the leader adds it. */
  lemma {:induction false} AddedFresh(run: seq<Cluster>, steps: seq<Step>, k: nat, line: nat, m: nat)
    requires IsRun(run, steps) && Joined(run, steps, k, line, m) && !Begins(run, k, line)
    ensures run[k].lines[line].isr[m] == -1
  {
    assert StepAt(run, steps, k - 1);
  }

  /** Over every run, what a leader tracks of a member of its ISR is the greatest offset it has been told of it since it
      joined, or what it joined with if that is greater. */
  lemma {:induction false} TrackedIsGreatest(run: seq<Cluster>, steps: seq<Step>, k: nat, n: nat, line: nat, m: nat)
    requires IsRun(run, steps) && k <= n < |run| && Joined(run, steps, k, line, m) && Stays(run, steps, k, n, line, m)
    ensures line < |run[n].lines| && m in run[n].lines[line].isr
    ensures var o, first := run[n].lines[line].isr[m], run[k].lines[line].isr[m];
            && first <= o && (forall i, p :: k <= i < n && ToldAt(run, steps, i, line, m, p) ==> p <= o)
            && (o == first || exists i :: k <= i < n && ToldAt(run, steps, i, line, m, o))
    decreases n
  {
    if n == k {
    } else {
      TrackedIsGreatest(run, steps, k, n - 1, line, m);
      assert StepAt(run, steps, n - 1) && !Moves(run[n - 1], steps[n - 1], line, m);
      StepTracks(run[n - 1], steps[n - 1], run[n], line, m);
      var o := run[n].lines[line].isr[m];
      forall i, p | k <= i < n && ToldAt(run, steps, i, line, m, p) ensures p <= o {
        assert i < n - 1 ==> p <= run[n - 1].lines[line].isr[m];
      }
      if o != run[n - 1].lines[line].isr[m] {
        assert ToldAt(run, steps, n - 1, line, m, o);
      }
    }
  }

  // ---------------------------------------------------------------- offsets on their way

  /** The follower asks the leader of the line for what comes after an offset. */
  predicate Asks(s: Cluster, step: Step, line: nat, id: nat, o: int) {
    step == Request(id) && id < |s.replicas| && s.replicas[id].line == line && o == |s.replicas[id].log| - 1
  }

  ghost predicate AskedAt(run: seq<Cluster>, steps: seq<Step>, i: nat, line: nat, id: nat, o: int)
    requires i < |steps| && |run| == |steps| + 1
  {
    Asks(run[i], steps[i], line, id, o)
  }

  lemma {:induction false} StepSends(s: Cluster, step: Step, t: Cluster, line: nat, id: nat)
    requires IsStep(s, step, t) && line < |s.lines|
    ensures line < |t.lines|
    ensures id in t.lines[line].sent <==> id in s.lines[line].sent || exists o :: Asks(s, step, line, id, o)
    ensures forall o :: Asks(s, step, line, id, o) ==> id in t.lines[line].sent && o <= t.lines[line].sent[id]
    ensures id in s.lines[line].sent ==> id in t.lines[line].sent && s.lines[line].sent[id] <= t.lines[line].sent[id]
    ensures id in t.lines[line].sent ==>
              || (id in s.lines[line].sent && t.lines[line].sent[id] == s.lines[line].sent[id])
              || Asks(s, step, line, id, t.lines[line].sent[id])
  {
    if step == Request(id) && s.replicas[id].line == line {
      assert Asks(s, step, line, id, |s.replicas[id].log| - 1);
    }
  }

  lemma {:induction false} NothingSent(run: seq<Cluster>, steps: seq<Step>, k: nat, line: nat)
    requires IsRun(run, steps) && Begins(run, k, line)
    ensures run[k].lines[line].sent == map[]
  {
    if k > 0 {
      assert StepAt(run, steps, k - 1);
      LinesStay(run[k - 1], steps[k - 1], run[k]);
    }
  }

  /** Over every run, the offset a follower has reported to a leader is the greatest it has asked with. */
  lemma {:induction false} SentIsGreatest(run: seq<Cluster>, steps: seq<Step>, k: nat, n: nat, line: nat, id: nat)
    requires IsRun(run, steps) && k <= n < |run| && Begins(run, k, line)
    ensures line < |run[n].lines|
    ensures var sent := run[n].lines[line].sent;
            && (forall i, o :: k <= i < n && AskedAt(run, steps, i, line, id, o) ==> id in sent && o <= sent[id])
            && (id in sent ==> exists i :: k <= i < n && AskedAt(run, steps, i, line, id, sent[id]))
    decreases n
  {
    if n == k {
      NothingSent(run, steps, k, line);
    } else {
      SentIsGreatest(run, steps, k, n - 1, line, id);
      assert StepAt(run, steps, n - 1);
      StepSends(run[n - 1], steps[n - 1], run[n], line, id);
      var was, sent := run[n - 1].lines[line].sent, run[n].lines[line].sent;
      forall i, o | k <= i < n && AskedAt(run, steps, i, line, id, o) ensures id in sent && o <= sent[id] {
        assert i < n - 1 ==> id in was && o <= was[id];
      }
      if id in sent && !(id in was && sent[id] == was[id]) {
        assert AskedAt(run, steps, n - 1, line, id, sent[id]);
      }
    }
  }

  // ---------------------------------------------------------------- commits and watermarks

  predicate Decides(step: Step, line: nat) {
    step.Decide? && step.line == line
  }

  /** The length decided on last in the steps from `k` up to `n`, or zero. */
  function LastLength(steps: seq<Step>, k: nat, n: nat, line: nat): nat
    requires n <= |steps|
    decreases n
  {
    if n <= k then 0 else if Decides(steps[n - 1], line) then steps[n - 1].length else LastLength(steps, k, n - 1, line)
  }

  /** What a leader has committed is what it decided last. */
  lemma {:induction false} CommittedIsDecided(run: seq<Cluster>, steps: seq<Step>, k: nat, n: nat, line: nat)
    requires IsRun(run, steps) && k <= n < |run| && Begins(run, k, line)
    ensures line < |run[n].lines| && run[n].lines[line].committed == LastLength(steps, k, n, line)
    decreases n
  {
    if n == k {
      NothingCommitted(run, steps, k, line);
    } else {
      CommittedIsDecided(run, steps, k, n - 1, line);
      StepCommits(run, steps, n - 1, line);
    }
  }

  lemma {:induction false} NothingCommitted(run: seq<Cluster>, steps: seq<Step>, k: nat, line: nat)
    requires IsRun(run, steps) && Begins(run, k, line)
    ensures run[k].lines[line].committed == 0
  {
    if k > 0 {
      assert StepAt(run, steps, k - 1);
      LinesStay(run[k - 1], steps[k - 1], run[k]);
    }
  }

  lemma {:induction false} StepCommits(run: seq<Cluster>, steps: seq<Step>, i: nat, line: nat)
    requires IsRun(run, steps) && i < |steps| && line < |run[i].lines|
    ensures line < |run[i + 1].lines|
    ensures run[i + 1].lines[line].committed ==
            if Decides(steps[i], line) then steps[i].length else run[i].lines[line].committed
  {
    assert StepAt(run, steps, i);
  }

  /** The decision was the leader's to take: its ISR had the minimum size, and each member was tracked that far. */
  ghost predicate DecidedAt(run: seq<Cluster>, steps: seq<Step>, i: nat, line: nat, length: nat)
    requires i < |steps| && |run| == |steps| + 1
  {
    && steps[i] == Decide(line, length) && line < |run[i].lines|
    && |run[i].lines[line].isr| >= run[i].minISR
    && forall m <- run[i].lines[line].isr :: length - 1 <= run[i].lines[line].isr[m]
  }

  /** Nothing is committed otherwise. */
  lemma {:induction false} CommitsAreDecided(run: seq<Cluster>, steps: seq<Step>, k: nat, n: nat, line: nat)
    requires IsRun(run, steps) && k <= n < |run| && Begins(run, k, line)
    ensures line < |run[n].lines|
    ensures var length := run[n].lines[line].committed;
            length > 0 ==> exists i :: k <= i < n && DecidedAt(run, steps, i, line, length)
    decreases n
  {
    if n == k {
      NothingCommitted(run, steps, k, line);
    } else {
      CommitsAreDecided(run, steps, k, n - 1, line);
      StepCommits(run, steps, n - 1, line);
      if Decides(steps[n - 1], line) {
        assert StepAt(run, steps, n - 1);
        assert DecidedAt(run, steps, n - 1, line, run[n].lines[line].committed);
      }
    }
  }

  /** The leader moves its high watermark. */
  predicate Advances(s: Cluster, step: Step, line: nat, hw: int) {
    step == Advance(line) && line < |s.lines| && hw == s.lines[line].committed - 1
  }

  ghost predicate AdvancedAt(run: seq<Cluster>, steps: seq<Step>, i: nat, line: nat, hw: int)
    requires i < |steps| && |run| == |steps| + 1
  {
    Advances(run[i], steps[i], line, hw)
  }

  lemma {:induction false} StepAdvances(s: Cluster, step: Step, t: Cluster, line: nat)
    requires IsStep(s, step, t) && line < |s.lines|
    ensures line < |t.lines| && s.lines[line].hw <= t.lines[line].hw
    ensures forall hw :: Advances(s, step, line, hw) ==> hw <= t.lines[line].hw
    ensures t.lines[line].hw == s.lines[line].hw || Advances(s, step, line, t.lines[line].hw)
  {
  }

  /** The high watermark of a leader is the one it began with, or the greatest it has moved it to. */
  lemma {:induction false} WatermarkIsGreatest(run: seq<Cluster>, steps: seq<Step>, k: nat, n: nat, line: nat)
    requires IsRun(run, steps) && k <= n < |run| && Begins(run, k, line)
    ensures line < |run[n].lines|
    ensures var hw, first := run[n].lines[line].hw, run[k].lines[line].hw;
            && first <= hw && (forall i, w :: k <= i < n && AdvancedAt(run, steps, i, line, w) ==> w <= hw)
            && (hw == first || exists i :: k <= i < n && AdvancedAt(run, steps, i, line, hw))
    decreases n
  {
    if n == k {
    } else {
      WatermarkIsGreatest(run, steps, k, n - 1, line);
      assert StepAt(run, steps, n - 1);
      StepAdvances(run[n - 1], steps[n - 1], run[n], line);
      var hw := run[n].lines[line].hw;
      forall i, w | k <= i < n && AdvancedAt(run, steps, i, line, w) ensures w <= hw {
        assert i < n - 1 ==> w <= run[n - 1].lines[line].hw;
      }
      if hw != run[n - 1].lines[line].hw {
        assert AdvancedAt(run, steps, n - 1, line, hw);
      }
    }
  }

  /** A new leader begins with the watermark, the log and the offset map it has. */
  lemma {:induction false} BeginsWithOwn(run: seq<Cluster>, steps: seq<Step>, k: nat, line: nat)
    requires IsRun(run, steps) && Begins(run, k, line) && k > 0
    ensures steps[k - 1].Elect? && steps[k - 1].id < |run[k - 1].replicas|
    ensures var l, step := run[k].lines[line], steps[k - 1];
            var r := run[k - 1].replicas[step.id];
            && l.leader == step.id && l.epoch == step.epoch && l.isr == step.kept && l.log == r.log
            && l.start == |r.log| && l.hw == r.hw && Leads(run[k], l.leader, line)
  {
    assert StepAt(run, steps, k - 1);
    LinesStay(run[k - 1], steps[k - 1], run[k]);
  }

  // ---------------------------------------------------------------- a replica's own watermark

  /** The step sets a replica's high watermark: from a response, or by its own commits. */
  predicate Sets(s: Cluster, step: Step, id: nat, hw: int) {
    || step == Learn(id, hw)
    || (step.Advance? && step.line < |s.lines| && s.lines[step.line].leader == id &&
        hw == Max(s.lines[step.line].hw, s.lines[step.line].committed - 1))
  }

  ghost predicate SetAt(run: seq<Cluster>, steps: seq<Step>, i: nat, id: nat, hw: int)
    requires i < |steps| && |run| == |steps| + 1
  {
    Sets(run[i], steps[i], id, hw)
  }

  /** A leader's watermark is that of its line. */
  ghost predicate LeaderKnows(s: Cluster, id: nat)
    requires id < |s.replicas|
  {
    Leads(s, id, s.replicas[id].line) ==> s.replicas[id].hw == s.lines[s.replicas[id].line].hw
  }

  lemma {:induction false} StepSets(s: Cluster, step: Step, t: Cluster, id: nat)
    requires IsStep(s, step, t) && id < |s.replicas| && LeaderKnows(s, id) && s.replicas[id].line < |s.lines|
    ensures id < |t.replicas| && LeaderKnows(t, id) && t.replicas[id].line < |t.lines|
    ensures s.replicas[id].hw <= t.replicas[id].hw
    ensures forall hw :: Sets(s, step, id, hw) ==> hw == t.replicas[id].hw
    ensures t.replicas[id].hw == s.replicas[id].hw || Sets(s, step, id, t.replicas[id].hw)
  {
  }

  /** Over every run, a replica's high watermark never falls, and is the last one it learned or moved to, or -1. */
  lemma {:induction false} WatermarkIsLast(run: seq<Cluster>, steps: seq<Step>, n: nat, id: nat)
    requires IsRun(run, steps) && n < |run| && id < |run[0].replicas|
    ensures id < |run[n].replicas| && LeaderKnows(run[n], id) && run[n].replicas[id].line < |run[n].lines|
    ensures var hw := run[n].replicas[id].hw;
            && (forall i, w :: 0 <= i < n && SetAt(run, steps, i, id, w) ==> w <= hw)
            && (hw == -1 || exists i :: 0 <= i < n && SetAt(run, steps, i, id, hw))
  {
    if n == 0 {
    } else {
      WatermarkIsLast(run, steps, n - 1, id);
      assert StepAt(run, steps, n - 1);
      StepSets(run[n - 1], steps[n - 1], run[n], id);
      var hw := run[n].replicas[id].hw;
      forall i, w | 0 <= i < n && SetAt(run, steps, i, id, w) ensures w <= hw {
        assert i < n - 1 ==> w <= run[n - 1].replicas[id].hw;
      }
      if hw != run[n - 1].replicas[id].hw {
        assert SetAt(run, steps, n - 1, id, hw);
      }
    }
  }

  // ---------------------------------------------------------------- what is written and fetched

  /** Step `i` writes a message to the line. */
  ghost predicate WritesAt(run: seq<Cluster>, steps: seq<Step>, i: nat, line: nat)
    requires i < |steps| && |run| == |steps| + 1
  {
    steps[i].Write? && line < |run[i].lines| && Leads(run[i], steps[i].id, line)
  }

  lemma {:induction false} StepWrites(run: seq<Cluster>, steps: seq<Step>, i: nat, line: nat)
    requires IsRun(run, steps) && i < |steps| && line < |run[i].lines|
    ensures line < |run[i + 1].lines| && run[i + 1].lines[line].epoch == run[i].lines[line].epoch
    ensures var l := run[i].lines[line];
            var more := if WritesAt(run, steps, i, line) then [Msg(l.epoch, steps[i].payload)] else [];
            run[i + 1].lines[line].log == l.log + more
  {
    assert StepAt(run, steps, i);
    RunKeepsBounded(run, steps, i);
    if steps[i].Write? {
      assert ReplicaBounded(run[i], steps[i].id);
    }
  }

  /** Message `j` of the line is what step `i` wrote. */
  ghost predicate WrittenBy(run: seq<Cluster>, steps: seq<Step>, i: nat, line: nat, j: int, m: Msg)
    requires i < |steps| && |run| == |steps| + 1
  {
    && WritesAt(run, steps, i, line) && |run[i].lines[line].log| == j
    && m == Msg(run[i].lines[line].epoch, steps[i].payload)
  }

  /** Every message from `from` on was written by a step from `k` up to `n`. */
  ghost predicate AllWritten(run: seq<Cluster>, steps: seq<Step>, k: nat, n: nat, line: nat, from: nat, log: seq<Msg>)
    requires n <= |steps| && |run| == |steps| + 1
  {
    forall j :: from <= j < |log| ==> IsWritten(run, steps, k, n, line, j, log[j])
  }

  ghost predicate IsWritten(run: seq<Cluster>, steps: seq<Step>, k: nat, n: nat, line: nat, j: int, m: Msg)
    requires n <= |steps| && |run| == |steps| + 1
  {
    exists i :: k <= i < n && WrittenBy(run, steps, i, line, j, m)
  }

  /** Over every run, the log of a line is the one its leader began with and then what the leader wrote, in order, */
  lemma {:induction false} LineIsWritten(run: seq<Cluster>, steps: seq<Step>, k: nat, n: nat, line: nat)
    requires IsRun(run, steps) && k <= n < |run| && Begins(run, k, line)
    ensures line < |run[n].lines| && run[k].lines[line].log <= run[n].lines[line].log
    ensures AllWritten(run, steps, k, n, line, |run[k].lines[line].log|, run[n].lines[line].log)
    decreases n
  {
    if n == k {
    } else {
      LineIsWritten(run, steps, k, n - 1, line);
      StepWrites(run, steps, n - 1, line);
      var from, was, log := |run[k].lines[line].log|, run[n - 1].lines[line].log, run[n].lines[line].log;
      forall j | from <= j < |log| ensures IsWritten(run, steps, k, n, line, j, log[j]) {
        if j < |was| {
          assert IsWritten(run, steps, k, n - 1, line, j, was[j]);
          var i :| k <= i < n - 1 && WrittenBy(run, steps, i, line, j, was[j]);
          assert log[j] == was[j] && WrittenBy(run, steps, i, line, j, log[j]);
        } else {
          assert WrittenBy(run, steps, n - 1, line, j, log[j]);
        }
      }
    }
  }

  /** and nothing that was written is missing from it. */
  lemma {:induction false} WrittenStays(run: seq<Cluster>, steps: seq<Step>, i: nat, n: nat, line: nat)
    requires IsRun(run, steps) && i < n < |run| && WritesAt(run, steps, i, line)
    ensures line < |run[n].lines| && run[n].lines[line].epoch == run[i].lines[line].epoch
    ensures run[i].lines[line].log + [Msg(run[i].lines[line].epoch, steps[i].payload)] <= run[n].lines[line].log
    decreases n
  {
    if i == n - 1 {
      StepWrites(run, steps, i, line);
    } else {
      WrittenStays(run, steps, i, n - 1, line);
      StepWrites(run, steps, n - 1, line);
    }
  }

  /** A replica that follows a line with part of its log has all of it after one fetch for each message it lacks. */
  lemma {:induction false} FetchesAll(s: Cluster, id: nat) returns (path: seq<Cluster>)
    requires Follows(s, id) && s.replicas[id].log <= s.lines[s.replicas[id].line].log
    ensures var log := s.lines[s.replicas[id].line].log;
            && |path| == |log| - |s.replicas[id].log| + 1 && path[0] == s
            && (forall i :: 0 <= i < |path| - 1 ==> IsStep(path[i], Fetch(id), path[i + 1]))
            && var t := path[|path| - 1];
               && t.lines == s.lines && |t.replicas| == |s.replicas| && t.replicas[id].log == log
               && forall x :: 0 <= x < |s.replicas| && x != id ==> t.replicas[x] == s.replicas[x]
    decreases |s.lines[s.replicas[id].line].log| - |s.replicas[id].log|
  {
    var r, log := s.replicas[id], s.lines[s.replicas[id].line].log;
    if |r.log| == |log| {
      path := [s];
    } else {
      var t := Next(s, Fetch(id));
      assert t.replicas[id].log == log[..|r.log| + 1];
      var rest := FetchesAll(t, id);
      path := [s] + rest;
    }
  }
}
